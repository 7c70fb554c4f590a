/** The pass structure of one frame of the island renderer, with the GPU
    abstracted away: the fixed-function state the renderer sets, and the
    ordered list of things it does (draws, shadow regeneration, blur, blit),
    each recorded with the state in force at that moment. */
module IslandFrame {

  import Text

  datatype DepthFunc = Less | LEqual | Always
  datatype PolygonMode = Fill | Line
  datatype Face = Front | Back

  /** Depth test, depth function, depth writes, blending, polygon mode, face
      culling and the culled face. */
  datatype Pipeline = Pipeline(depthTest: bool, depthFunc: DepthFunc, depthWrite: bool, blend: bool,
                               polygon: PolygonMode, cullTest: bool, cullFace: Face)

  datatype Action =
    | SkyFace(face: nat)     // one face of the environment cube map
    | ShadowRegen            // regeneration of the terrain shadow map
    | GroundCell(cell: nat)  // one visible terrain cell
    | GroundWire(cell: nat)  // its wireframe overlay
    | WaterCopy              // low-resolution copy of the scene under the water
    | Blur                   // blur of that copy
    | BlitPositions          // copy of the full-resolution position map
    | OceanSurface           // tessellated ocean surface
    | OceanWire              // its wireframe overlay
    | UnderwaterEffect       // full-screen underwater effect
    | FarOcean               // the distant ocean cylinder
    | FarOceanWire           // its wireframe overlay
    | SkyDome                // the atmosphere behind everything
    | Tonemap                // final tonemapping to the window

  datatype Event = Event(action: Action, state: Pipeline)

  /** The current state and the events of the frame so far. */
  datatype Frame = Frame(state: Pipeline, events: seq<Event>)

  /** The toggles the frame reads: a pending sky update and the four views. */
  datatype Flags = Flags(updateSky: bool, showTerrain: bool, showOcean: bool, showSky: bool, showWire: bool)

  predicate IsWire(a: Action)
  {
    a.GroundWire? || a == OceanWire || a == FarOceanWire
  }

  /** The state every frame starts and ends in, as far as later passes rely
      on it: filled polygons, depth function LESS with writes, back faces. */
  predicate Resting(s: Pipeline)
  {
    s.depthFunc == Less && s.depthWrite && s.polygon == Fill && s.cullFace == Back
  }

  /** The camera is under water strictly below the plane y = 0. */
  predicate Underwater(camY: real)
  {
    camY < 0.0
  }

  // ---------------------------------------------------------------------------
  // State changes and the frame's segments.

  function Then(f: Frame, a: Action): Frame
  {
    f.(events := f.events + [Event(a, f.state)])
  }

  /** The one-argument depth setter: only the test bit changes. */
  function DepthOnly(f: Frame, on: bool): Frame
  {
    f.(state := f.state.(depthTest := on))
  }

  function Depth(f: Frame, on: bool, func: DepthFunc, write: bool): Frame
  {
    f.(state := f.state.(depthTest := on, depthFunc := func, depthWrite := write))
  }

  function NoBlend(f: Frame): Frame
  {
    f.(state := f.state.(blend := false))
  }

  function Polygon(f: Frame, mode: PolygonMode): Frame
  {
    f.(state := f.state.(polygon := mode))
  }

  function Cull(f: Frame, face: Face): Frame
  {
    f.(state := f.state.(cullTest := true, cullFace := face))
  }

  /** A wireframe overlay: lines with LEQUAL, the draw, then fill with LESS. */
  function WireOverlay(f: Frame, a: Action): Frame
  {
    Depth(Polygon(Then(Depth(Polygon(f, Line), true, LEqual, true), a), Fill), true, Less, true)
  }

  function SkyFaces(f: Frame, n: nat): Frame
  {
    if n == 0 then f else Then(SkyFaces(f, n - 1), SkyFace(n - 1))
  }

  /** The environment update run when the sky is marked dirty. */
  function UpdateSky(f: Frame, pending: bool): Frame
  {
    if pending then Then(SkyFaces(NoBlend(DepthOnly(f, false)), 6), ShadowRegen) else f
  }

  /** The terrain cells, given whether each one is in the view frustum. */
  function Cells(f: Frame, visible: seq<bool>, wire: bool): Frame
  {
    if visible == [] then f
    else
      var g := Cells(f, visible[..|visible| - 1], wire);
      var c := |visible| - 1;
      if !visible[c] then g
      else if wire then WireOverlay(Then(g, GroundCell(c)), GroundWire(c))
      else Then(g, GroundCell(c))
  }

  function Ground(f: Frame, showTerrain: bool, wire: bool, visible: seq<bool>): Frame
  {
    var g := NoBlend(DepthOnly(f, true));
    if showTerrain then Cells(g, visible, wire) else g
  }

  /** Copy under the surface, blur it, blit the positions. */
  function WaterEffects(f: Frame): Frame
  {
    Then(Then(DepthOnly(Then(DepthOnly(f, false), WaterCopy), true), Blur), BlitPositions)
  }

  /** The surface draw, culling front faces from under the water, and its overlay. */
  function Surface(f: Frame, wire: bool, under: bool): Frame
  {
    var h := Then(if under then Cull(f, Front) else f, OceanSurface);
    if wire then WireOverlay(h, OceanWire) else h
  }

  /** Under the water: back faces again, a second copy and blur, the effect. */
  function UnderwaterTail(f: Frame): Frame
  {
    DepthOnly(Then(DepthOnly(WaterEffects(Cull(f, Back)), false), UnderwaterEffect), true)
  }

  /** Above the water: the far ocean with ALWAYS, its overlay, then LESS. */
  function FarOceanTail(f: Frame, wire: bool): Frame
  {
    var m := Then(Depth(f, true, Always, true), FarOcean);
    Depth(if wire then WireOverlay(m, FarOceanWire) else m, true, Less, true)
  }

  function Ocean(f: Frame, showOcean: bool, wire: bool, under: bool): Frame
  {
    if !showOcean then f
    else
      var k := Surface(WaterEffects(f), wire, under);
      if under then UnderwaterTail(k) else FarOceanTail(k, wire)
  }

  function SkyPass(f: Frame, showSky: bool, showOcean: bool, under: bool): Frame
  {
    if showSky && !(showOcean && under) then Then(Depth(f, true, LEqual, false), SkyDome) else f
  }

  function Present(f: Frame): Frame
  {
    Then(Depth(f, false, Less, true), Tonemap)
  }

  /** One frame, from the state `s` the previous one left, with the camera at
      height `camY` and the frustum test result of every terrain cell. */
  function DrawFrame(s: Pipeline, flags: Flags, camY: real, visible: seq<bool>): Frame
  {
    var under := Underwater(camY);
    var f := UpdateSky(Frame(s, []), flags.updateSky);
    var g := Ground(f, flags.showTerrain, flags.showWire, visible);
    Present(SkyPass(Ocean(g, flags.showOcean, flags.showWire, under), flags.showSky, flags.showOcean, under))
  }

  // ---------------------------------------------------------------------------
  // The order of actions.

  function Actions(es: seq<Event>): seq<Action>
  {
    if es == [] then [] else Actions(es[..|es| - 1]) + [es[|es| - 1].action]
  }

  lemma ThenActions(f: Frame, a: Action)
    ensures Actions(Then(f, a).events) == Actions(f.events) + [a]
  {
    var es := Then(f, a).events;
    assert es[..|es| - 1] == f.events;
  }

  /** The faces 0 to n - 1. */
  function FaceList(n: nat): (r: seq<Action>)
    ensures |r| == n
  {
    if n == 0 then [] else FaceList(n - 1) + [SkyFace(n - 1)]
  }

  /** Position `i` of the list holds face `i`. */
  lemma {:induction false} FaceListAt(n: nat, i: nat)
    requires i < n
    ensures FaceList(n)[i] == SkyFace(i)
  {
    if i < n - 1 {
      FaceListAt(n - 1, i);
    }
  }

  lemma {:induction false} SkyFacesActions(f: Frame, n: nat)
    ensures Actions(SkyFaces(f, n).events) == Actions(f.events) + FaceList(n)
    ensures SkyFaces(f, n).state == f.state
  {
    if n > 0 {
      SkyFacesActions(f, n - 1);
      ThenActions(SkyFaces(f, n - 1), SkyFace(n - 1));
    }
  }

  /** What the cells loop does: each visible cell is drawn, then its overlay
      when wireframe is on. */
  function CellList(visible: seq<bool>, wire: bool): seq<Action>
  {
    if visible == [] then []
    else
      var c := |visible| - 1;
      CellList(visible[..c], wire) + (if !visible[c] then [] else if wire then [GroundCell(c), GroundWire(c)] else [GroundCell(c)])
  }

  lemma WireOverlayActions(f: Frame, a: Action)
    ensures Actions(WireOverlay(f, a).events) == Actions(f.events) + [a]
  {
    ThenActions(Depth(Polygon(f, Line), true, LEqual, true), a);
  }

  lemma {:induction false} CellsActions(f: Frame, visible: seq<bool>, wire: bool)
    ensures Actions(Cells(f, visible, wire).events) == Actions(f.events) + CellList(visible, wire)
    decreases |visible|
  {
    if visible != [] {
      var c := |visible| - 1;
      var g := Cells(f, visible[..c], wire);
      CellsActions(f, visible[..c], wire);
      if visible[c] {
        ThenActions(g, GroundCell(c));
        if wire {
          WireOverlayActions(Then(g, GroundCell(c)), GroundWire(c));
        }
      }
    }
  }

  /** Only cell draws and their overlays. */
  lemma {:induction false} CellListOnlyCells(visible: seq<bool>, wire: bool)
    ensures forall a :: a in CellList(visible, wire) ==> a.GroundCell? || a.GroundWire?
    ensures forall a :: a in CellList(visible, wire) && a.GroundWire? ==> wire
    decreases |visible|
  {
    if visible != [] {
      CellListOnlyCells(visible[..|visible| - 1], wire);
    }
  }

  lemma WaterEffectsActions(f: Frame)
    ensures Actions(WaterEffects(f).events) == Actions(f.events) + [WaterCopy, Blur, BlitPositions]
  {
    var g := Then(DepthOnly(f, false), WaterCopy);
    ThenActions(DepthOnly(f, false), WaterCopy);
    ThenActions(DepthOnly(g, true), Blur);
    ThenActions(Then(DepthOnly(g, true), Blur), BlitPositions);
  }

  /** What the ocean block does, in order. */
  function OceanList(showOcean: bool, wire: bool, under: bool): seq<Action>
  {
    if !showOcean then []
    else
      [WaterCopy, Blur, BlitPositions, OceanSurface] + (if wire then [OceanWire] else [])
      + (if under then [WaterCopy, Blur, BlitPositions, UnderwaterEffect]
         else [FarOcean] + (if wire then [FarOceanWire] else []))
  }

  lemma SurfaceActions(f: Frame, wire: bool, under: bool)
    ensures Actions(Surface(f, wire, under).events) == Actions(f.events) + [OceanSurface] + (if wire then [OceanWire] else [])
  {
    var g := if under then Cull(f, Front) else f;
    ThenActions(g, OceanSurface);
    if wire {
      WireOverlayActions(Then(g, OceanSurface), OceanWire);
    }
  }

  lemma UnderwaterTailActions(f: Frame)
    ensures Actions(UnderwaterTail(f).events) == Actions(f.events) + [WaterCopy, Blur, BlitPositions, UnderwaterEffect]
  {
    WaterEffectsActions(Cull(f, Back));
    ThenActions(DepthOnly(WaterEffects(Cull(f, Back)), false), UnderwaterEffect);
  }

  lemma FarOceanTailActions(f: Frame, wire: bool)
    ensures Actions(FarOceanTail(f, wire).events) == Actions(f.events) + [FarOcean] + (if wire then [FarOceanWire] else [])
  {
    ThenActions(Depth(f, true, Always, true), FarOcean);
    if wire {
      WireOverlayActions(Then(Depth(f, true, Always, true), FarOcean), FarOceanWire);
    }
  }

  lemma OceanActions(f: Frame, showOcean: bool, wire: bool, under: bool)
    ensures Actions(Ocean(f, showOcean, wire, under).events) == Actions(f.events) + OceanList(showOcean, wire, under)
  {
    if showOcean {
      var w := WaterEffects(f);
      WaterEffectsActions(f);
      var k := Surface(w, wire, under);
      SurfaceActions(w, wire, under);
      var head := [WaterCopy, Blur, BlitPositions, OceanSurface] + (if wire then [OceanWire] else []);
      assert Actions(k.events) == Actions(f.events) + head;
      if under {
        UnderwaterTailActions(k);
      } else {
        FarOceanTailActions(k, wire);
      }
    }
  }

  /** The closed form of a frame's actions, segment by segment. */
  function SkyUpdateList(pending: bool): seq<Action>
  {
    if pending then FaceList(6) + [ShadowRegen] else []
  }

  function TerrainList(showTerrain: bool, visible: seq<bool>, wire: bool): seq<Action>
  {
    if showTerrain then CellList(visible, wire) else []
  }

  function DomeList(showSky: bool, showOcean: bool, under: bool): seq<Action>
  {
    if showSky && !(showOcean && under) then [SkyDome] else []
  }

  function FrameList(flags: Flags, camY: real, visible: seq<bool>): seq<Action>
  {
    var under := Underwater(camY);
    SkyUpdateList(flags.updateSky) + TerrainList(flags.showTerrain, visible, flags.showWire)
    + OceanList(flags.showOcean, flags.showWire, under) + DomeList(flags.showSky, flags.showOcean, under) + [Tonemap]
  }

  lemma UpdateSkyActions(f: Frame, pending: bool)
    ensures Actions(UpdateSky(f, pending).events) == Actions(f.events) + SkyUpdateList(pending)
  {
    if pending {
      SkyFacesActions(NoBlend(DepthOnly(f, false)), 6);
      ThenActions(SkyFaces(NoBlend(DepthOnly(f, false)), 6), ShadowRegen);
    }
  }

  lemma GroundActions(f: Frame, showTerrain: bool, wire: bool, visible: seq<bool>)
    ensures Actions(Ground(f, showTerrain, wire, visible).events) == Actions(f.events) + TerrainList(showTerrain, visible, wire)
  {
    if showTerrain {
      CellsActions(NoBlend(DepthOnly(f, true)), visible, wire);
    }
  }

  lemma SkyPassActions(f: Frame, showSky: bool, showOcean: bool, under: bool)
    ensures Actions(Present(SkyPass(f, showSky, showOcean, under)).events)
         == Actions(f.events) + DomeList(showSky, showOcean, under) + [Tonemap]
  {
    if showSky && !(showOcean && under) {
      ThenActions(Depth(f, true, LEqual, false), SkyDome);
    }
    ThenActions(Depth(SkyPass(f, showSky, showOcean, under), false, Less, true), Tonemap);
  }

  /** The actions of a frame are its segments' actions in order. */
  lemma FrameActions(s: Pipeline, flags: Flags, camY: real, visible: seq<bool>)
    ensures Actions(DrawFrame(s, flags, camY, visible).events) == FrameList(flags, camY, visible)
  {
    var under := Underwater(camY);
    var f := UpdateSky(Frame(s, []), flags.updateSky);
    UpdateSkyActions(Frame(s, []), flags.updateSky);
    var a1 := SkyUpdateList(flags.updateSky);
    assert Actions(f.events) == a1;
    var g := Ground(f, flags.showTerrain, flags.showWire, visible);
    GroundActions(f, flags.showTerrain, flags.showWire, visible);
    var a2 := TerrainList(flags.showTerrain, visible, flags.showWire);
    assert Actions(g.events) == a1 + a2;
    var o := Ocean(g, flags.showOcean, flags.showWire, under);
    OceanActions(g, flags.showOcean, flags.showWire, under);
    var a3 := OceanList(flags.showOcean, flags.showWire, under);
    assert Actions(o.events) == a1 + a2 + a3;
    SkyPassActions(o, flags.showSky, flags.showOcean, under);
    var a4 := DomeList(flags.showSky, flags.showOcean, under);
    assert Actions(Present(SkyPass(o, flags.showSky, flags.showOcean, under)).events) == a1 + a2 + a3 + a4 + [Tonemap];
  }

  // ---------------------------------------------------------------------------
  // The state each draw sees.

  /** What each kind of action requires of the state it runs in: wireframe
      overlays, and only they, draw lines, with LEQUAL; terrain and surface
      use LESS; the surface culls front faces exactly under water; the far
      ocean uses ALWAYS; the sky uses LEQUAL without depth writes. */
  predicate Disciplined(e: Event, under: bool)
  {
    (IsWire(e.action) <==> e.state.polygon == Line)
    && (IsWire(e.action) ==> e.state.depthTest && e.state.depthFunc == LEqual)
    && (e.action.GroundCell? || e.action == OceanSurface ==> e.state.depthTest && e.state.depthFunc == Less)
    && (e.action == OceanSurface ==> (e.state.cullFace == Front <==> under))
    && (e.action == WaterCopy || e.action == UnderwaterEffect ==> !e.state.depthTest)
    && (e.action == FarOcean ==> e.state.depthTest && e.state.depthFunc == Always)
    && (e.action == SkyDome ==> e.state.depthTest && e.state.depthFunc == LEqual && !e.state.depthWrite)
  }

  /** Every event of `g` that is not already in `f` is disciplined. */
  predicate AddsDisciplined(f: Frame, g: Frame, under: bool)
  {
    forall e :: e in g.events ==> e in f.events || Disciplined(e, under)
  }

  lemma WireOverlayKeeps(f: Frame, a: Action, under: bool)
    requires IsWire(a) && f.state.polygon == Fill
    ensures WireOverlay(f, a).state == f.state.(depthTest := true, depthFunc := Less, depthWrite := true)
    ensures AddsDisciplined(f, WireOverlay(f, a), under)
  {
  }

  lemma {:induction false} CellsKeep(f: Frame, visible: seq<bool>, wire: bool, under: bool)
    requires Resting(f.state) && f.state.depthTest
    ensures Cells(f, visible, wire).state == f.state
    ensures AddsDisciplined(f, Cells(f, visible, wire), under)
    decreases |visible|
  {
    if visible != [] {
      var c := |visible| - 1;
      var g := Cells(f, visible[..c], wire);
      CellsKeep(f, visible[..c], wire, under);
      if visible[c] && wire {
        WireOverlayKeeps(Then(g, GroundCell(c)), GroundWire(c), under);
      }
    }
  }

  lemma {:induction false} SkyFacesKeep(f: Frame, n: nat, under: bool)
    requires f.state.polygon == Fill
    ensures SkyFaces(f, n).state == f.state
    ensures AddsDisciplined(f, SkyFaces(f, n), under)
  {
    if n > 0 {
      SkyFacesKeep(f, n - 1, under);
    }
  }

  lemma UpdateSkyKeeps(f: Frame, pending: bool, under: bool)
    requires Resting(f.state)
    ensures Resting(UpdateSky(f, pending).state)
    ensures AddsDisciplined(f, UpdateSky(f, pending), under)
  {
    if pending {
      SkyFacesKeep(NoBlend(DepthOnly(f, false)), 6, under);
    }
  }

  lemma GroundKeeps(f: Frame, showTerrain: bool, wire: bool, visible: seq<bool>, under: bool)
    requires Resting(f.state)
    ensures Resting(Ground(f, showTerrain, wire, visible).state) && Ground(f, showTerrain, wire, visible).state.depthTest
    ensures AddsDisciplined(f, Ground(f, showTerrain, wire, visible), under)
  {
    if showTerrain {
      CellsKeep(NoBlend(DepthOnly(f, true)), visible, wire, under);
    }
  }

  lemma WaterEffectsKeep(f: Frame, under: bool)
    requires f.state.polygon == Fill
    ensures WaterEffects(f).state == f.state.(depthTest := true)
    ensures AddsDisciplined(f, WaterEffects(f), under)
  {
  }

  lemma SurfaceKeeps(f: Frame, wire: bool, under: bool)
    requires Resting(f.state) && f.state.depthTest
    ensures Surface(f, wire, under).state.depthFunc == Less && Surface(f, wire, under).state.depthWrite
    ensures Surface(f, wire, under).state.polygon == Fill
    ensures Surface(f, wire, under).state.cullFace == (if under then Front else Back)
    ensures AddsDisciplined(f, Surface(f, wire, under), under)
  {
    var g := if under then Cull(f, Front) else f;
    if wire {
      WireOverlayKeeps(Then(g, OceanSurface), OceanWire, under);
    }
  }

  lemma UnderwaterTailKeeps(f: Frame, under: bool)
    requires f.state.depthFunc == Less && f.state.depthWrite && f.state.polygon == Fill
    ensures Resting(UnderwaterTail(f).state)
    ensures AddsDisciplined(f, UnderwaterTail(f), under)
  {
    WaterEffectsKeep(Cull(f, Back), under);
  }

  lemma FarOceanTailKeeps(f: Frame, wire: bool, under: bool)
    requires f.state.polygon == Fill && f.state.cullFace == Back
    ensures Resting(FarOceanTail(f, wire).state)
    ensures AddsDisciplined(f, FarOceanTail(f, wire), under)
  {
    var m := Then(Depth(f, true, Always, true), FarOcean);
    if wire {
      WireOverlayKeeps(m, FarOceanWire, under);
    }
  }

  /** The ocean block leaves the state as it found it: LESS, filled, back faces. */
  lemma OceanKeeps(f: Frame, showOcean: bool, wire: bool, under: bool)
    requires Resting(f.state) && f.state.depthTest
    ensures Resting(Ocean(f, showOcean, wire, under).state)
    ensures AddsDisciplined(f, Ocean(f, showOcean, wire, under), under)
  {
    if showOcean {
      var w := WaterEffects(f);
      WaterEffectsKeep(f, under);
      var k := Surface(w, wire, under);
      SurfaceKeeps(w, wire, under);
      if under {
        UnderwaterTailKeeps(k, under);
      } else {
        FarOceanTailKeeps(k, wire, under);
      }
    }
  }

  lemma SkyPassKeeps(f: Frame, showSky: bool, showOcean: bool, under: bool)
    requires Resting(f.state)
    ensures Resting(Present(SkyPass(f, showSky, showOcean, under)).state)
    ensures !Present(SkyPass(f, showSky, showOcean, under)).state.depthTest
    ensures AddsDisciplined(f, Present(SkyPass(f, showSky, showOcean, under)), under)
  {
  }

  /** Starting from the resting state, every event of the frame runs in the
      state its kind requires, and the frame ends in the resting state with
      the depth test off. */
  lemma FrameDiscipline(s: Pipeline, flags: Flags, camY: real, visible: seq<bool>)
    requires Resting(s)
    ensures Resting(DrawFrame(s, flags, camY, visible).state) && !DrawFrame(s, flags, camY, visible).state.depthTest
    ensures forall e :: e in DrawFrame(s, flags, camY, visible).events ==> Disciplined(e, Underwater(camY))
  {
    var under := Underwater(camY);
    var f0 := Frame(s, []);
    var f := UpdateSky(f0, flags.updateSky);
    UpdateSkyKeeps(f0, flags.updateSky, under);
    var g := Ground(f, flags.showTerrain, flags.showWire, visible);
    GroundKeeps(f, flags.showTerrain, flags.showWire, visible, under);
    var o := Ocean(g, flags.showOcean, flags.showWire, under);
    OceanKeeps(g, flags.showOcean, flags.showWire, under);
    SkyPassKeeps(o, flags.showSky, flags.showOcean, under);
  }

  // ---------------------------------------------------------------------------
  // Pass selection.

  /** The actions that belong to the sky update. */
  predicate SkyUpdating(x: Action)
  {
    x.SkyFace? || x == ShadowRegen
  }

  /** Everything after the sky update: terrain, ocean, sky dome, tonemap. */
  function AfterSkyList(flags: Flags, camY: real, visible: seq<bool>): seq<Action>
  {
    var under := Underwater(camY);
    TerrainList(flags.showTerrain, visible, flags.showWire)
    + OceanList(flags.showOcean, flags.showWire, under) + DomeList(flags.showSky, flags.showOcean, under) + [Tonemap]
  }

  lemma AfterSkyClean(flags: Flags, camY: real, visible: seq<bool>)
    ensures forall x :: x in AfterSkyList(flags, camY, visible) ==> !SkyUpdating(x)
  {
    CellListOnlyCells(visible, flags.showWire);
  }

  /** The shape of a list that starts with the sky update, on any list of
      later actions. */
  lemma SkyUpdateShape(pending: bool, rest: seq<Action>)
    requires forall x :: x in rest ==> !SkyUpdating(x)
    ensures var a := SkyUpdateList(pending) + rest;
      if pending then
        |a| >= 7 && (forall i :: 0 <= i < 6 ==> a[i] == SkyFace(i)) && a[6] == ShadowRegen
        && forall j :: 7 <= j < |a| ==> !SkyUpdating(a[j])
      else
        forall j :: 0 <= j < |a| ==> !SkyUpdating(a[j])
  {
    var a := SkyUpdateList(pending) + rest;
    if pending {
      var faces := FaceList(6);
      assert a == faces + [ShadowRegen] + rest;
      forall i | 0 <= i < 6
        ensures a[i] == SkyFace(i)
      {
        assert a[i] == faces[i];
        FaceListAt(6, i);
      }
      forall j | 7 <= j < |a|
        ensures !SkyUpdating(a[j])
      {
        assert a[j] == rest[j - 7];
      }
    } else {
      forall j | 0 <= j < |a|
        ensures !SkyUpdating(a[j])
      {
        assert a[j] == rest[j];
      }
    }
  }

  /** A pending sky update draws the six cube faces in order and then
      regenerates the shadow map, before anything else; without one, neither
      happens. */
  lemma SkyUpdateFirst(flags: Flags, camY: real, visible: seq<bool>)
    ensures var a := FrameList(flags, camY, visible);
      if flags.updateSky then
        |a| >= 7 && (forall i :: 0 <= i < 6 ==> a[i] == SkyFace(i)) && a[6] == ShadowRegen
        && forall j :: 7 <= j < |a| ==> !SkyUpdating(a[j])
      else
        forall j :: 0 <= j < |a| ==> !SkyUpdating(a[j])
  {
    var rest := AfterSkyList(flags, camY, visible);
    assert FrameList(flags, camY, visible) == SkyUpdateList(flags.updateSky) + rest;
    AfterSkyClean(flags, camY, visible);
    SkyUpdateShape(flags.updateSky, rest);
  }

  function Ind(y: Action, x: Action): nat
  {
    if y == x then 1 else 0
  }

  lemma CountOne(y: Action, x: Action)
    ensures Text.Count([y], x) == Ind(y, x)
  {
    assert [y][..0] == [];
  }

  lemma CountFour(a: Action, b: Action, c: Action, d: Action, x: Action)
    ensures Text.Count([a, b, c, d], x) == Ind(a, x) + Ind(b, x) + Ind(c, x) + Ind(d, x)
  {
    assert [a, b, c, d] == [a] + [b] + [c] + [d];
    Text.CountAppend([a] + [b] + [c], [d], x);
    Text.CountAppend([a] + [b], [c], x);
    Text.CountAppend([a], [b], x);
    CountOne(a, x);
    CountOne(b, x);
    CountOne(c, x);
    CountOne(d, x);
  }

  lemma OceanCountsOf(showOcean: bool, wire: bool, under: bool, x: Action)
    requires showOcean
    ensures Text.Count(OceanList(showOcean, wire, under), x)
         == Ind(WaterCopy, x) + Ind(Blur, x) + Ind(BlitPositions, x) + Ind(OceanSurface, x)
          + (if wire then Ind(OceanWire, x) else 0)
          + (if under then Ind(WaterCopy, x) + Ind(Blur, x) + Ind(BlitPositions, x) + Ind(UnderwaterEffect, x)
             else Ind(FarOcean, x) + (if wire then Ind(FarOceanWire, x) else 0))
  {
    var head := [WaterCopy, Blur, BlitPositions, OceanSurface];
    var wires := if wire then [OceanWire] else [];
    var far := if wire then [FarOceanWire] else [];
    var tail := if under then [WaterCopy, Blur, BlitPositions, UnderwaterEffect] else [FarOcean] + far;
    assert OceanList(showOcean, wire, under) == head + wires + tail;
    Text.CountAppend(head + wires, tail, x);
    Text.CountAppend(head, wires, x);
    CountFour(WaterCopy, Blur, BlitPositions, OceanSurface, x);
    if wire {
      CountOne(OceanWire, x);
      CountOne(FarOceanWire, x);
    }
    if under {
      CountFour(WaterCopy, Blur, BlitPositions, UnderwaterEffect, x);
    } else {
      Text.CountAppend([FarOcean], far, x);
      CountOne(FarOcean, x);
    }
  }

  /** How often the ocean block performs each water pass. */
  lemma OceanCounts(showOcean: bool, wire: bool, under: bool)
    ensures var o := OceanList(showOcean, wire, under);
      var n := if !showOcean then 0 else if under then 2 else 1;
      Text.Count(o, WaterCopy) == n && Text.Count(o, Blur) == n && Text.Count(o, BlitPositions) == n
      && Text.Count(o, FarOcean) == (if showOcean && !under then 1 else 0)
      && Text.Count(o, UnderwaterEffect) == (if showOcean && under then 1 else 0)
      && Text.Count(o, SkyDome) == 0
  {
    if showOcean {
      OceanCountsOf(showOcean, wire, under, WaterCopy);
      OceanCountsOf(showOcean, wire, under, Blur);
      OceanCountsOf(showOcean, wire, under, BlitPositions);
      OceanCountsOf(showOcean, wire, under, FarOcean);
      OceanCountsOf(showOcean, wire, under, UnderwaterEffect);
      OceanCountsOf(showOcean, wire, under, SkyDome);
    }
  }

  lemma CountFive(a1: seq<Action>, a2: seq<Action>, a3: seq<Action>, a4: seq<Action>, a5: seq<Action>, x: Action)
    ensures Text.Count(a1 + a2 + a3 + a4 + a5, x) == Text.Count(a1, x) + Text.Count(a2, x) + Text.Count(a3, x) + Text.Count(a4, x) + Text.Count(a5, x)
  {
    Text.CountAppend(a1 + a2 + a3 + a4, a5, x);
    Text.CountAppend(a1 + a2 + a3, a4, x);
    Text.CountAppend(a1 + a2, a3, x);
    Text.CountAppend(a1, a2, x);
  }

  lemma SkyUpdateOnly(pending: bool)
    ensures forall x :: x in SkyUpdateList(pending) ==> SkyUpdating(x)
  {
    if pending {
      var l := FaceList(6) + [ShadowRegen];
      forall x | x in l
        ensures SkyUpdating(x)
      {
        var i :| 0 <= i < |l| && l[i] == x;
        if i < 6 {
          assert x == FaceList(6)[i];
          FaceListAt(6, i);
        }
      }
    }
  }

  /** Counting an action other than the sky update, ground and tonemap
      over a frame is counting it over the ocean block and the sky dome. */
  lemma FrameCount(flags: Flags, camY: real, visible: seq<bool>, x: Action)
    requires !SkyUpdating(x) && !x.GroundCell? && !x.GroundWire? && x != Tonemap
    ensures Text.Count(FrameList(flags, camY, visible), x)
         == Text.Count(OceanList(flags.showOcean, flags.showWire, Underwater(camY)), x)
          + (if x == SkyDome && flags.showSky && !(flags.showOcean && Underwater(camY)) then 1 else 0)
  {
    var under := Underwater(camY);
    var a1 := SkyUpdateList(flags.updateSky);
    var a2 := TerrainList(flags.showTerrain, visible, flags.showWire);
    var a3 := OceanList(flags.showOcean, flags.showWire, under);
    var a4 := DomeList(flags.showSky, flags.showOcean, under);
    CountFive(a1, a2, a3, a4, [Tonemap], x);
    SkyUpdateOnly(flags.updateSky);
    CellListOnlyCells(visible, flags.showWire);
    Text.CountNone(a1, x);
    Text.CountNone(a2, x);
    CountOne(Tonemap, x);
    if a4 != [] {
      CountOne(SkyDome, x);
    }
  }

  /** The copy, blur and blit sequence runs twice under water, once above it,
      and not at all without the ocean; the far ocean is drawn exactly when
      the ocean is shown above the water, and the underwater effect exactly
      when it is shown below. */
  lemma WaterPassCounts(flags: Flags, camY: real, visible: seq<bool>)
    ensures var a := FrameList(flags, camY, visible);
      var under := Underwater(camY);
      Text.Count(a, WaterCopy) == Text.Count(a, Blur) == Text.Count(a, BlitPositions) == (if !flags.showOcean then 0 else if under then 2 else 1)
      && Text.Count(a, FarOcean) == (if flags.showOcean && !under then 1 else 0)
      && Text.Count(a, UnderwaterEffect) == (if flags.showOcean && under then 1 else 0)
  {
    var under := Underwater(camY);
    FrameCount(flags, camY, visible, WaterCopy);
    FrameCount(flags, camY, visible, Blur);
    FrameCount(flags, camY, visible, BlitPositions);
    FrameCount(flags, camY, visible, FarOcean);
    FrameCount(flags, camY, visible, UnderwaterEffect);
    OceanCounts(flags.showOcean, flags.showWire, under);
  }

  /** The sky is drawn once, unless it is hidden or the camera looks at the
      shown ocean from below. */
  lemma SkyDomeCount(flags: Flags, camY: real, visible: seq<bool>)
    ensures Text.Count(FrameList(flags, camY, visible), SkyDome)
         == (if flags.showSky && !(flags.showOcean && Underwater(camY)) then 1 else 0)
  {
    FrameCount(flags, camY, visible, SkyDome);
    OceanCounts(flags.showOcean, flags.showWire, Underwater(camY));
  }

  /** A camera exactly at the water plane counts as above it: one copy, blur
      and blit, the far ocean, no underwater effect, and the sky when shown. */
  lemma SurfaceLevelIsAbove(flags: Flags, visible: seq<bool>)
    requires flags.showOcean
    ensures var a := FrameList(flags, 0.0, visible);
      Text.Count(a, WaterCopy) == 1 && Text.Count(a, FarOcean) == 1 && Text.Count(a, UnderwaterEffect) == 0
      && Text.Count(a, SkyDome) == (if flags.showSky then 1 else 0)
  {
    WaterPassCounts(flags, 0.0, visible);
    SkyDomeCount(flags, 0.0, visible);
  }
}
