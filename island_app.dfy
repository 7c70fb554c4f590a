/** The island demo application: the sizes of its offscreen framebuffers,
    the Gerstner wave parameters it draws at random, and the object that
    renders one frame at a time, step by step, into the frame model of
    `IslandFrame`. */
module IslandApp {
  import opened IslandFrame

  // ---------------------------------------------------------------------------
  // Framebuffer sizes.

  datatype Size = Size(width: nat, height: nat)

  /** The scene and position buffers, at the rendering resolution, and the two
      water-effect buffers, at half of it. */
  datatype Buffers = Buffers(scene: Size, waterPos: Size, effectsHalf: Size, effectsBlur: Size)

  /** Conversion of a non-negative float to an unsigned integer: truncation. */
  function Truncate(x: real): (n: nat)
    requires x >= 0.0
    ensures n as real <= x < n as real + 1.0
  {
    x.Floor
  }

  /** The buffers the constructor allocates: each axis truncated, and the
      halves obtained by integer division of the truncated value. */
  function InitialBuffers(resW: real, resH: real): Buffers
    requires resW >= 0.0 && resH >= 0.0
  {
    var full := Size(Truncate(resW), Truncate(resH));
    var half := Size(Truncate(resW) / 2, Truncate(resH) / 2);
    Buffers(full, full, half, half)
  }

  /** The buffers after a resize: the halves are computed in floating point
      and then truncated. */
  function ResizedBuffers(resW: real, resH: real): Buffers
    requires resW >= 0.0 && resH >= 0.0
  {
    var full := Size(Truncate(resW), Truncate(resH));
    var half := Size(Truncate(resW / 2.0), Truncate(resH / 2.0));
    Buffers(full, full, half, half)
  }

  /** Halving before or after truncation gives the same size. */
  lemma TruncateHalf(x: real)
    requires x >= 0.0
    ensures Truncate(x / 2.0) == Truncate(x) / 2
  {
    var n := Truncate(x);
    var k := n / 2;
    assert n == 2 * k || n == 2 * k + 1;
    assert k as real <= x / 2.0 < k as real + 1.0;
  }

  /** Resizing to a resolution yields the buffers the constructor would have
      allocated for it: full size twice, half size twice. */
  lemma ResizeMatchesConstruction(resW: real, resH: real)
    requires resW >= 0.0 && resH >= 0.0
    ensures ResizedBuffers(resW, resH) == InitialBuffers(resW, resH)
    ensures var b := InitialBuffers(resW, resH);
      b.scene == b.waterPos && b.effectsHalf == b.effectsBlur
      && b.effectsHalf == Size(b.scene.width / 2, b.scene.height / 2)
  {
    TruncateHalf(resW);
    TruncateHalf(resH);
  }

  /** HD resolutions give water-effect buffers of exactly half size. */
  lemma HalfSizeExamples()
    ensures InitialBuffers(1920.0, 1080.0).effectsHalf == Size(960, 540)
    ensures InitialBuffers(1280.0, 720.0).effectsBlur == Size(640, 360)
    ensures InitialBuffers(1920.0, 1080.0).scene == Size(1920, 1080)
  {
    assert Truncate(1920.0) == 1920;
    assert Truncate(1080.0) == 1080;
    assert Truncate(1280.0) == 1280;
    assert Truncate(720.0) == 720;
  }

  // ---------------------------------------------------------------------------
  // Gerstner waves.

  /** Amplitude, steepness Q, frequency and phase of a wave, then its
      direction, its angle and its active flag. */
  datatype Wave = Wave(amplitude: real, steepness: real, frequency: real, phase: real,
                       dirX: real, dirY: real, angle: real, active: real)

  /** The five random draws made for one wave, in the order they are made:
      amplitude offset, raw steepness factor, frequency offset, phase and
      angle offset. */
  datatype Roll = Roll(amplitude: real, steepness: real, frequency: real, phase: real, angle: real)

  const Pi: real := 3.141592653589793

  predicate Within(x: real, lo: real, hi: real)
  {
    lo <= x <= hi
  }

  /** The sampling ranges of the three low-frequency waves. */
  predicate LowRoll(r: Roll)
  {
    Within(r.amplitude, -0.01, 0.01) && Within(r.steepness, 0.1, 0.5) && Within(r.frequency, -1.5, 1.5)
    && Within(r.phase, 0.2, 1.5) && Within(r.angle, -0.5, 0.5)
  }

  /** The sampling ranges of the five high-frequency waves. */
  predicate HighRoll(r: Roll)
  {
    Within(r.amplitude, -0.01, 0.01) && Within(r.steepness, 0.6, 1.0) && Within(r.frequency, -3.0, 8.0)
    && Within(r.phase, 1.0, 3.0) && Within(r.angle, -0.5, 0.5)
  }

  /** Slots 0 to 2 hold low waves, slots 3 to 7 high waves. */
  predicate RollFits(i: nat, r: Roll)
  {
    if i < 3 then LowRoll(r) else HighRoll(r)
  }

  predicate ValidRolls(rolls: seq<Roll>)
  {
    |rolls| == 8 && forall i :: 0 <= i < 8 ==> RollFits(i, rolls[i])
  }

  function BaseAmplitude(i: nat): real
  {
    if i < 3 then 0.025 else 0.02
  }

  function BaseFrequency(i: nat): real
  {
    if i < 3 then 2.5 else 10.0
  }

  /** Low waves spread their angles over thirds of a turn, high waves over
      fifths, shifted by half a turn. */
  function WaveAngle(i: nat, offset: real): real
  {
    if i < 3 then (2.0 / 3.0) * (i as real + offset) * Pi
    else ((2.0 / 5.0) * (i as real + offset) - 1.0) * Pi
  }

  /** The steepness before normalisation: three times the drawn factor. */
  function RawSteepness(r: Roll): real
  {
    3.0 * r.steepness
  }

  /** The wave in slot `i` after generation, from the wave it replaces: the
      steepness is the raw steepness over amplitude times frequency times the
      eight waves, and the active flag is kept. */
  function SlotWave(prev: Wave, i: nat, r: Roll, cos: real -> real, sin: real -> real): Wave
    requires RollFits(i, r)
  {
    var a := BaseAmplitude(i) + r.amplitude;
    var w := BaseFrequency(i) + r.frequency;
    var angle := WaveAngle(i, r.angle);
    assert a * w > 0.0 by {
      assert a >= 0.01 && w >= 1.0;
    }
    prev.(amplitude := a, steepness := RawSteepness(r) / (a * w * 8.0), frequency := w, phase := r.phase,
          dirX := cos(angle), dirY := sin(angle), angle := angle)
  }

  /** The normalised steepness times amplitude, frequency and eight gives
      back the raw steepness; amplitude and frequency lie in their ranges and
      are positive, the raw steepness lies in its range, the normalised one
      is positive, and the active flag is untouched. */
  lemma SlotNormalised(prev: Wave, i: nat, r: Roll, cos: real -> real, sin: real -> real)
    requires RollFits(i, r)
    ensures var v := SlotWave(prev, i, r, cos, sin);
      v.steepness * (v.amplitude * v.frequency * 8.0) == RawSteepness(r)
      && (if i < 3 then Within(v.amplitude, 0.015, 0.035) && Within(v.frequency, 1.0, 4.0)
                        && Within(RawSteepness(r), 0.3, 1.5)
          else Within(v.amplitude, 0.01, 0.03) && Within(v.frequency, 7.0, 18.0)
               && Within(RawSteepness(r), 1.8, 3.0))
      && v.amplitude > 0.0 && v.frequency > 0.0 && v.steepness > 0.0
      && v.active == prev.active
  {
    var v := SlotWave(prev, i, r, cos, sin);
    var d := v.amplitude * v.frequency * 8.0;
    assert d > 0.0 by {
      assert v.amplitude >= 0.01 && v.frequency >= 1.0;
      assert v.amplitude * v.frequency >= 0.01 * v.frequency;
    }
    assert v.steepness == RawSteepness(r) / d;
    assert v.steepness * d == RawSteepness(r);
    assert RawSteepness(r) > 0.0;
  }

  /** The parameters one iteration of the generation loop writes into a
      wave, field by field, ending with the normalisation of the steepness. */
  method NewWave(prev: Wave, i: nat, r: Roll, cos: real -> real, sin: real -> real) returns (wv: Wave)
    requires RollFits(i, r)
    ensures wv == SlotWave(prev, i, r, cos, sin)
  {
    wv := prev;
    wv := wv.(amplitude := BaseAmplitude(i) + r.amplitude);
    wv := wv.(steepness := RawSteepness(r));
    wv := wv.(frequency := BaseFrequency(i) + r.frequency);
    wv := wv.(phase := r.phase);
    wv := wv.(angle := WaveAngle(i, r.angle));
    wv := wv.(dirX := cos(wv.angle));
    wv := wv.(dirY := sin(wv.angle));
    assert wv.amplitude >= 0.01 && wv.frequency >= 1.0;
    assert wv.amplitude * wv.frequency > 0.0 by {
      assert wv.amplitude * wv.frequency >= 0.01 * wv.frequency;
    }
    wv := wv.(steepness := wv.steepness / (wv.amplitude * wv.frequency * 8.0));
  }

  // ---------------------------------------------------------------------------
  // The application object.

  /** OpenGL's initial fixed-function state: depth test off with LESS and
      writes on, blending off, filled polygons, culling off with back faces. */
  const GLDefaults: Pipeline := Pipeline(false, Less, true, false, Fill, false, Back)

  class Island {
    var shouldUpdateSky: bool
    var showTerrain: bool
    var showOcean: bool
    var showSky: bool
    var showWire: bool
    /** The fixed-function state and the events of the frame being drawn. */
    var state: Pipeline
    var events: seq<Event>
    var buffers: Buffers
    const waves: array<Wave>

    function Current(): Frame
      reads this
    {
      Frame(state, events)
    }

    function Toggles(): Flags
      reads this
    {
      Flags(shouldUpdateSky, showTerrain, showOcean, showSky, showWire)
    }

    /** Allocates the buffers for the rendering resolution, enables the depth
      test and generates the waves. The initial toggles and wave contents
      are declared outside the modelled file and are given here. */
    constructor(resW: real, resH: real, toggles: Flags, initialWave: Wave,
                rolls: seq<Roll>, cos: real -> real, sin: real -> real)
      requires resW >= 0.0 && resH >= 0.0
      requires ValidRolls(rolls)
      ensures buffers == InitialBuffers(resW, resH)
      ensures Toggles() == toggles
      ensures state == GLDefaults.(depthTest := true) && Resting(state) && events == []
      ensures waves.Length == 8 && fresh(waves)
      ensures forall i :: 0 <= i < 8 ==> waves[i] == SlotWave(initialWave, i, rolls[i], cos, sin)
    {
      buffers := InitialBuffers(resW, resH);
      shouldUpdateSky := toggles.updateSky;
      showTerrain := toggles.showTerrain;
      showOcean := toggles.showOcean;
      showSky := toggles.showSky;
      showWire := toggles.showWire;
      waves := new Wave[8](_ => initialWave);
      state := GLDefaults;
      events := [];
      new;
      SetDepthOnly(true);
      GenerateWaves(rolls, cos, sin);
    }

    /** Draws new parameters for the eight waves, low ones first. */
    method GenerateWaves(rolls: seq<Roll>, cos: real -> real, sin: real -> real)
      requires waves.Length == 8 && ValidRolls(rolls)
      modifies waves
      ensures forall i :: 0 <= i < 8 ==> waves[i] == SlotWave(old(waves[i]), i, rolls[i], cos, sin)
    {
      for i := 0 to 8
        invariant forall k :: 0 <= k < i ==> waves[k] == SlotWave(old(waves[k]), k, rolls[k], cos, sin)
        invariant forall k :: i <= k < 8 ==> waves[k] == old(waves[k])
      {
        var wv := NewWave(waves[i], i, rolls[i], cos, sin);
        waves[i] := wv;
      }
    }

    /** Editing the light direction in the interface marks the sky, and with
      it the shadow map, for regeneration at the next frame. */
    method LightDirectionEdited()
      modifies this`shouldUpdateSky
      ensures shouldUpdateSky
    {
      shouldUpdateSky := true;
    }

    /** Recomputes the buffer sizes for a new rendering resolution. */
    method Resize(resW: real, resH: real)
      requires resW >= 0.0 && resH >= 0.0
      modifies this`buffers
      ensures buffers == ResizedBuffers(resW, resH)
    {
      buffers := ResizedBuffers(resW, resH);
    }

    // The fixed-function state setters and the event log.

    method Record(a: Action)
      modifies this`events
      ensures Current() == Then(old(Current()), a)
    {
      events := events + [Event(a, state)];
    }

    method SetDepthOnly(on: bool)
      modifies this`state
      ensures Current() == DepthOnly(old(Current()), on)
    {
      state := state.(depthTest := on);
    }

    method SetDepth(on: bool, func: DepthFunc, write: bool)
      modifies this`state
      ensures Current() == Depth(old(Current()), on, func, write)
    {
      state := state.(depthTest := on, depthFunc := func, depthWrite := write);
    }

    method SetNoBlend()
      modifies this`state
      ensures Current() == NoBlend(old(Current()))
    {
      state := state.(blend := false);
    }

    method SetPolygon(mode: PolygonMode)
      modifies this`state
      ensures Current() == Polygon(old(Current()), mode)
    {
      state := state.(polygon := mode);
    }

    method SetCull(face: Face)
      modifies this`state
      ensures Current() == Cull(old(Current()), face)
    {
      state := state.(cullTest := true, cullFace := face);
    }

    // The passes of a frame.

    method DrawWire(a: Action)
      modifies this`state, this`events
      ensures Current() == WireOverlay(old(Current()), a)
    {
      SetPolygon(Line);
      SetDepth(true, LEqual, true);
      Record(a);
      SetPolygon(Fill);
      SetDepth(true, Less, true);
    }

    /** Renders the six cube faces and the shadow map when the sky is dirty,
      and clears the flag. */
    method UpdateSkyPass()
      modifies this`state, this`events, this`shouldUpdateSky
      ensures Current() == UpdateSky(old(Current()), old(shouldUpdateSky))
      ensures !shouldUpdateSky
    {
      if shouldUpdateSky {
        SetDepthOnly(false);
        SetNoBlend();
        ghost var start := Current();
        for lid := 0 to 6
          invariant Current() == SkyFaces(start, lid)
        {
          Record(SkyFace(lid));
        }
        Record(ShadowRegen);
        shouldUpdateSky := false;
      }
    }

    /** Draws every cell the frustum test keeps, each with its overlay when
      wireframes are shown. */
    method GroundPass(visible: seq<bool>)
      modifies this`state, this`events
      ensures Current() == Ground(old(Current()), showTerrain, showWire, visible)
    {
      SetDepthOnly(true);
      SetNoBlend();
      if showTerrain {
        ghost var start := Current();
        for c := 0 to |visible|
          invariant Current() == Cells(start, visible[..c], showWire)
        {
          CellsStep(start, visible, c, showWire);
          if visible[c] {
            Record(GroundCell(c));
            if showWire {
              DrawWire(GroundWire(c));
            }
          }
        }
        assert visible[..|visible|] == visible;
      }
    }

    method WaterEffectsPass()
      modifies this`state, this`events
      ensures Current() == WaterEffects(old(Current()))
    {
      SetDepthOnly(false);
      Record(WaterCopy);
      SetDepthOnly(true);
      Record(Blur);
      Record(BlitPositions);
    }

    method OceanPass(under: bool)
      modifies this`state, this`events
      ensures Current() == Ocean(old(Current()), showOcean, showWire, under)
    {
      if showOcean {
        WaterEffectsPass();
        if under {
          SetCull(Front);
        }
        Record(OceanSurface);
        if showWire {
          DrawWire(OceanWire);
        }
        if under {
          SetCull(Back);
          WaterEffectsPass();
          SetDepthOnly(false);
          Record(UnderwaterEffect);
          SetDepthOnly(true);
        } else {
          SetDepth(true, Always, true);
          Record(FarOcean);
          if showWire {
            DrawWire(FarOceanWire);
          }
          SetDepth(true, Less, true);
        }
      }
    }

    method SkyAndPresent(under: bool)
      modifies this`state, this`events
      ensures Current() == Present(SkyPass(old(Current()), showSky, showOcean, under))
    {
      if showSky && !(showOcean && under) {
        SetDepth(true, LEqual, false);
        Record(SkyDome);
      }
      SetDepth(false, Less, true);
      Record(Tonemap);
    }

    /** Draws one frame with the camera at height `camY`, given the frustum
      test of every terrain cell. The log restarts with the frame; the frame
      performs the passes its toggles select, each in the state it needs, and
      leaves the state at rest. The constructor leaves the state at rest, and
      so does every frame, so each frame starts from it. */
    method Draw(camY: real, visible: seq<bool>)
      requires Resting(state)
      modifies this`state, this`events, this`shouldUpdateSky
      ensures Current() == DrawFrame(old(state), old(Toggles()), camY, visible)
      ensures Actions(events) == FrameList(old(Toggles()), camY, visible)
      ensures Resting(state) && !state.depthTest
      ensures forall e :: e in events ==> Disciplined(e, Underwater(camY))
      ensures !shouldUpdateSky
    {
      ghost var flags := Toggles();
      ghost var s0 := state;
      DrawPasses(camY, visible);
      DrawnFrame(s0, flags, camY, visible);
    }

    /** The passes of `draw` in order, on a fresh log. */
    method DrawPasses(camY: real, visible: seq<bool>)
      modifies this`state, this`events, this`shouldUpdateSky
      ensures Current() == DrawFrame(old(state), old(Toggles()), camY, visible)
      ensures !shouldUpdateSky
    {
      ghost var flags := Toggles();
      ghost var s0 := state;
      events := [];
      var under := camY < 0.0;
      assert under == Underwater(camY);
      ghost var f := UpdateSky(Frame(s0, []), flags.updateSky);
      UpdateSkyPass();
      assert Current() == f;
      ghost var g := Ground(f, flags.showTerrain, flags.showWire, visible);
      GroundPass(visible);
      assert Current() == g;
      ghost var o := Ocean(g, flags.showOcean, flags.showWire, under);
      OceanPass(under);
      assert Current() == o;
      SkyAndPresent(under);
    }
  }

  /** What a drawn frame does, gathered: its actions, its final state and the
      state of each of its events. */
  lemma DrawnFrame(s: Pipeline, flags: Flags, camY: real, visible: seq<bool>)
    requires Resting(s)
    ensures var d := DrawFrame(s, flags, camY, visible);
      Actions(d.events) == FrameList(flags, camY, visible)
      && Resting(d.state) && !d.state.depthTest
      && forall e :: e in d.events ==> Disciplined(e, Underwater(camY))
  {
    FrameActions(s, flags, camY, visible);
    FrameDiscipline(s, flags, camY, visible);
  }

  /** One more cell of the frustum-tested list extends the ground exactly by
      that cell's draws. */
  lemma CellsStep(f: Frame, visible: seq<bool>, c: nat, wire: bool)
    requires c < |visible|
    ensures Cells(f, visible[..c + 1], wire)
         == (var g := Cells(f, visible[..c], wire);
             if !visible[c] then g
             else if wire then WireOverlay(Then(g, GroundCell(c)), GroundWire(c))
             else Then(g, GroundCell(c)))
  {
    assert visible[..c + 1][..c] == visible[..c];
  }
}
