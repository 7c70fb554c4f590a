/** A linked GPU shader program as the engine sees it: the table from uniform
    names to locations built from the driver's list of active uniforms, the
    cache of vec3 array elements, the refresh of both after the program is
    rebuilt, the guarded `uniform` uploads, and the names it derives for
    debugging and for binary export.

    The driver is an input: its list of active uniforms, its location lookup
    (a function of the uniform name for one linked program) and the texture
    bindings reported when the program is linked. Every upload the program
    issues is appended to a log. */
module ShaderProgram {
  import opened Wrappers
  import opened Text

  datatype Vec2 = Vec2(x: real, y: real)
  datatype Vec3 = Vec3(x: real, y: real, z: real)
  datatype Vec4 = Vec4(x: real, y: real, z: real, w: real)

  /** One entry of the driver's active-uniform list: its name and array size. */
  datatype ActiveUniform = ActiveUniform(name: string, size: int)

  /** A uniform upload call, with the location it targets. */
  datatype Upload =
    | Uniform1i(location: int, i: int)
    | Uniform1f(location: int, f: real)
    | Uniform1fv(location: int, fs: seq<real>)
    | Uniform2fv(location: int, v2: Vec2)
    | Uniform3fv(location: int, v3: Vec3)
    | Uniform4fv(location: int, v4: Vec4)
    | UniformMatrix3fv(location: int, m3: seq<real>)
    | UniformMatrix4fv(location: int, m4: seq<real>)

  /** The values accepted by the `uniform` overloads (matrices column-major). */
  datatype UniformValue =
    | BoolValue(b: bool)
    | IntValue(i: int)
    | FloatValue(f: real)
    | FloatArray(fs: seq<real>)
    | Vec2Value(v2: Vec2)
    | Vec3Value(v3: Vec3)
    | Vec4Value(v4: Vec4)
    | Mat3Value(m3: seq<real>)
    | Mat4Value(m4: seq<real>)

  // ---------------------------------------------------------------------------
  // Names derived from the three stage names.

  /** The shader sources requested from the resource manager, in order. */
  function ShaderFiles(vertexName: string, fragmentName: string, geometryName: string): seq<string>
  {
    [vertexName + ".vert", fragmentName + ".frag"] + (if geometryName == [] then [] else [geometryName + ".geom"])
  }

  /** A geometry source is requested exactly when the geometry stage is named. */
  lemma GeometryRequestedIff(vertexName: string, fragmentName: string, geometryName: string)
    ensures (exists i :: 0 <= i < |ShaderFiles(vertexName, fragmentName, geometryName)|
               && ShaderFiles(vertexName, fragmentName, geometryName)[i] == geometryName + ".geom")
            <==> geometryName != []
    ensures ShaderFiles(vertexName, fragmentName, geometryName)[..2] == [vertexName + ".vert", fragmentName + ".frag"]
  {
    var r := ShaderFiles(vertexName, fragmentName, geometryName);
    if geometryName == [] {
      forall i | 0 <= i < |r|
        ensures r[i] != geometryName + ".geom"
      {
        assert r[i][|r[i]| - 1] == (if i == 0 then 't' else 'g');
      }
    } else {
      assert r[2] == geometryName + ".geom";
    }
  }

  /** The name used in driver messages: the stage names in pipeline order. */
  function DebugName(vertexName: string, fragmentName: string, geometryName: string): string
  {
    "(" + vertexName + ", " + (if geometryName == [] then "" else geometryName + ", ") + fragmentName + ")"
  }

  /** The named stages in pipeline order: vertex, geometry when present, fragment. */
  function Stages(vertexName: string, fragmentName: string, geometryName: string): seq<string>
  {
    [vertexName] + (if geometryName == [] then [] else [geometryName]) + [fragmentName]
  }

  /** `parts` separated by `sep`. */
  function JoinWith(parts: seq<string>, sep: string): string
  {
    if parts == [] then ""
    else if |parts| == 1 then parts[0]
    else parts[0] + sep + JoinWith(parts[1..], sep)
  }

  /** The debug name is the stage list, comma-separated, in parentheses. */
  lemma DebugNameListsStages(vertexName: string, fragmentName: string, geometryName: string)
    ensures DebugName(vertexName, fragmentName, geometryName)
         == "(" + JoinWith(Stages(vertexName, fragmentName, geometryName), ", ") + ")"
  {
    var st := Stages(vertexName, fragmentName, geometryName);
    if geometryName == [] {
      assert st[1..] == [fragmentName];
    } else {
      assert st[1..] == [geometryName, fragmentName];
      assert st[1..][1..] == [fragmentName];
      assert JoinWith(st[1..], ", ") == geometryName + ", " + fragmentName;
    }
  }

  /** The file `saveBinary` writes to, or None when it returns early: the driver
      reports no binary format, or the program has no binary. */
  function BinaryPath(outputPath: string, vertexName: string, fragmentName: string,
                      formatCount: int, binaryLength: int, format: nat): (r: Option<string>)
    ensures r.None? <==> formatCount <= 0 || binaryLength <= 0
  {
    if formatCount <= 0 || binaryLength <= 0 then None
    else Some(outputPath + "_(" + vertexName + "," + fragmentName + ")_" + NatToString(format) + ".bin")
  }

  lemma Middle(a: string, x: string, b: string)
    ensures (a + x + b)[|a|..|a| + |x|] == x
  {
  }

  /** Binaries of different formats go to different files. */
  lemma BinaryPathNamesFormat(outputPath: string, vertexName: string, fragmentName: string,
                             formatCount: int, binaryLength: int, f1: nat, f2: nat)
    requires BinaryPath(outputPath, vertexName, fragmentName, formatCount, binaryLength, f1).Some?
    requires BinaryPath(outputPath, vertexName, fragmentName, formatCount, binaryLength, f1)
          == BinaryPath(outputPath, vertexName, fragmentName, formatCount, binaryLength, f2)
    ensures f1 == f2
  {
    var a := outputPath + "_(" + vertexName + "," + fragmentName + ")_";
    var x, y := NatToString(f1), NatToString(f2);
    var b := ".bin";
    assert a + x + b == a + y + b;
    assert |a + x + b| == |a| + |x| + |b| && |a + y + b| == |a| + |y| + |b|;
    Middle(a, x, ".bin");
    Middle(a, y, ".bin");
    NatToStringInjective(f1, f2);
  }

  // ---------------------------------------------------------------------------
  // Registration of active uniforms.

  /** Records the table does not register: size 0, no name, or a built-in
      `gl_` name longer than the prefix itself. */
  predicate Skipped(u: ActiveUniform)
  {
    u.size == 0 || u.name == [] || (|u.name| > 3 && u.name[..3] == "gl_")
  }

  /** The bare prefix `gl_` is not a built-in name and is kept. */
  lemma PrefixAloneKept(size: int)
    requires size != 0
    ensures !Skipped(ActiveUniform("gl_", size))
    ensures Skipped(ActiveUniform("gl_x", size))
  {
  }

  /** The name of an array uniform without its subscript: everything before
      the first `[`, or the whole name when it has none. */
  function ArrayBase(name: string): (base: string)
    ensures base <= name && '[' !in base
    ensures base == name || name[|base|] == '['
  {
    match FindFrom(name, '[', 0)
    case None => name
    case Some(p) => name[..p]
  }

  /** The name of element `j` of the array uniform `base`. */
  function ElementName(base: string, j: nat): string
  {
    base + "[" + NatToString(j) + "]"
  }

  /** Different subscripts name different elements. */
  lemma ElementNameInjective(base: string, i: nat, j: nat)
    requires ElementName(base, i) == ElementName(base, j)
    ensures i == j
  {
    var x, y := NatToString(i), NatToString(j);
    assert |x| == |y|;
    Middle(base + "[", x, "]");
    Middle(base + "[", y, "]");
    NatToStringInjective(i, j);
  }

  /** Taking the array name of an element name gives the array back. */
  lemma ArrayBaseOfElement(base: string, j: nat)
    requires '[' !in base
    ensures ArrayBase(ElementName(base, j)) == base
  {
    var s := ElementName(base, j);
    assert s[|base|] == '[';
    FindFromAt(s, '[', 0, |base|);
    assert s[..|base|] == base;
  }

  /** The names of elements `lo` up to `hi - 1` of array `base`. */
  function ElementNames(base: string, lo: nat, hi: int): set<string>
    decreases hi - lo
  {
    if hi <= lo then {} else ElementNames(base, lo, hi - 1) + {ElementName(base, hi - 1)}
  }

  lemma {:induction false} ElementNamesSpec(base: string, lo: nat, hi: int, n: string)
    ensures n in ElementNames(base, lo, hi) <==> exists j: nat :: lo <= j < hi && n == ElementName(base, j)
    decreases hi - lo
  {
    if hi > lo {
      ElementNamesSpec(base, lo, hi - 1, n);
    }
  }

  /** The names one record contributes to the table. */
  function RecordNames(u: ActiveUniform): set<string>
  {
    if Skipped(u) then {}
    else {u.name} + (if u.size > 1 then ElementNames(ArrayBase(u.name), 1, u.size) else {})
  }

  /** The names the records contribute, in list order. */
  function RegisteredNames(records: seq<ActiveUniform>): set<string>
  {
    if records == [] then {}
    else RegisteredNames(records[..|records| - 1]) + RecordNames(records[|records| - 1])
  }

  /** A name is registered exactly when some record contributes it. */
  lemma {:induction false} RegisteredNamesSpec(records: seq<ActiveUniform>, n: string)
    ensures n in RegisteredNames(records) <==> exists i :: 0 <= i < |records| && n in RecordNames(records[i])
    decreases |records|
  {
    if records != [] {
      var init := records[..|records| - 1];
      RegisteredNamesSpec(init, n);
      if n in RegisteredNames(init) {
        var i :| 0 <= i < |init| && n in RecordNames(init[i]);
        assert records[i] == init[i];
      }
      if exists i :: 0 <= i < |records| && n in RecordNames(records[i]) {
        var i :| 0 <= i < |records| && n in RecordNames(records[i]);
        if i < |init| {
          assert init[i] == records[i];
        }
      }
    }
  }

  /** A kept array record named `base[0]` registers every element of the array. */
  lemma ArrayFullyRegistered(records: seq<ActiveUniform>, i: nat, base: string)
    requires i < |records| && !Skipped(records[i]) && '[' !in base
    requires records[i].name == ElementName(base, 0)
    ensures forall j: nat :: j < records[i].size ==> ElementName(base, j) in RegisteredNames(records)
  {
    ArrayBaseOfElement(base, 0);
    forall j: nat | j < records[i].size
      ensures ElementName(base, j) in RegisteredNames(records)
    {
      if j > 0 {
        ElementNamesSpec(base, 1, records[i].size, ElementName(base, j));
      }
      assert ElementName(base, j) in RecordNames(records[i]);
      RegisteredNamesSpec(records, ElementName(base, j));
    }
  }

  /** The driver's location of each name in `names`. */
  function LocationTable(names: set<string>, location: string -> int): map<string, int>
  {
    map n | n in names :: location(n)
  }

  /** `std::map::operator[]` applied to each of `names`: missing keys are
      inserted with location 0, present keys keep their location. */
  function InsertMissing(table: map<string, int>, names: set<string>): (r: map<string, int>)
    ensures r.Keys == table.Keys + names
  {
    map n | n in table.Keys + names :: if n in table then table[n] else 0
  }

  /** `operator[]` read of a table. */
  function Lookup(table: map<string, int>, name: string): int
  {
    if name in table then table[name] else 0
  }

  /** The texture-slot uploads, one per binding in the order of `keys`. */
  function BindingUploads(table: map<string, int>, bindings: map<string, int>, keys: seq<string>): seq<Upload>
  {
    if keys == [] then []
    else
      var k := keys[|keys| - 1];
      BindingUploads(table, bindings, keys[..|keys| - 1])
        + [Uniform1i(Lookup(table, k), if k in bindings then bindings[k] else 0)]
  }

  lemma BindingStep(table: map<string, int>, bindings: map<string, int>, keys: seq<string>, i: nat)
    requires i < |keys| && keys[i] in bindings
    ensures BindingUploads(table, bindings, keys[..i + 1])
         == BindingUploads(table, bindings, keys[..i]) + [Uniform1i(Lookup(table, keys[i]), bindings[keys[i]])]
  {
    assert keys[..i + 1][..i] == keys[..i];
  }

  lemma RegisteredStep(records: seq<ActiveUniform>, i: nat)
    requires i < |records|
    ensures RegisteredNames(records[..i + 1]) == RegisteredNames(records[..i]) + RecordNames(records[i])
  {
    assert records[..i + 1][..i] == records[..i];
  }

  lemma LocationTableAdd(names: set<string>, n: string, location: string -> int)
    ensures LocationTable(names, location)[n := location(n)] == LocationTable(names + {n}, location)
  {
  }

  /** Registration of the active uniforms of a freshly linked program. */
  method RegisterUniforms(records: seq<ActiveUniform>, location: string -> int)
    returns (table: map<string, int>)
    ensures table == LocationTable(RegisteredNames(records), location)
  {
    table := map[];
    var i := 0;
    while i < |records|
      invariant 0 <= i <= |records|
      invariant table == LocationTable(RegisteredNames(records[..i]), location)
    {
      var u := records[i];
      ghost var before := RegisteredNames(records[..i]);
      RegisteredStep(records, i);
      if !Skipped(u) {
        LocationTableAdd(before, u.name, location);
        table := table[u.name := location(u.name)];
        if u.size > 1 {
          var base := ArrayBase(u.name);
          var j := 1;
          while j < u.size
            invariant 1 <= j <= u.size
            invariant table == LocationTable(before + {u.name} + ElementNames(base, 1, j), location)
          {
            var vname := ElementName(base, j);
            LocationTableAdd(before + {u.name} + ElementNames(base, 1, j), vname, location);
            table := table[vname := location(vname)];
            j := j + 1;
          }
        }
        assert before + RecordNames(u) == before + {u.name} + (if u.size > 1 then ElementNames(ArrayBase(u.name), 1, u.size) else {});
      }
      i := i + 1;
    }
    assert records[..i] == records;
  }

  // ---------------------------------------------------------------------------
  // The vec3 array cache.

  /** The cache after storing `vals` as the elements of array `name`. */
  function CachedArray(cache: map<string, Vec3>, name: string, vals: seq<Vec3>): map<string, Vec3>
  {
    if vals == [] then cache
    else CachedArray(cache, name, vals[..|vals| - 1])[ElementName(name, |vals| - 1) := vals[|vals| - 1]]
  }

  /** The vec3 uploads issued while caching `vals`, element by element. */
  function ArrayUploads(table: map<string, int>, name: string, vals: seq<Vec3>): seq<Upload>
  {
    if vals == [] then []
    else ArrayUploads(table, name, vals[..|vals| - 1]) + [Uniform3fv(Lookup(table, ElementName(name, |vals| - 1)), vals[|vals| - 1])]
  }

  lemma ArrayStep(cache: map<string, Vec3>, table: map<string, int>, name: string, vals: seq<Vec3>, i: nat)
    requires i < |vals|
    ensures CachedArray(cache, name, vals[..i + 1]) == CachedArray(cache, name, vals[..i])[ElementName(name, i) := vals[i]]
    ensures ArrayUploads(table, name, vals[..i + 1])
         == ArrayUploads(table, name, vals[..i]) + [Uniform3fv(Lookup(table, ElementName(name, i)), vals[i])]
  {
    assert vals[..i + 1][..i] == vals[..i];
  }

  /** After caching, element `i` of the array holds `vals[i]`. */
  lemma {:induction false} CachedElement(cache: map<string, Vec3>, name: string, vals: seq<Vec3>, i: nat)
    requires i < |vals|
    ensures ElementName(name, i) in CachedArray(cache, name, vals)
    ensures CachedArray(cache, name, vals)[ElementName(name, i)] == vals[i]
    decreases |vals|
  {
    var n := |vals| - 1;
    if i < n {
      var init := vals[..n];
      CachedElement(cache, name, init, i);
      if ElementName(name, i) == ElementName(name, n) {
        ElementNameInjective(name, i, n);
      }
      assert init[i] == vals[i];
    }
  }

  /** Caching adds exactly the element names and leaves every other entry as
      it was. */
  lemma {:induction false} CachedOthers(cache: map<string, Vec3>, name: string, vals: seq<Vec3>)
    ensures CachedArray(cache, name, vals).Keys == cache.Keys + ElementNames(name, 0, |vals|)
    ensures forall k :: k in cache && k !in ElementNames(name, 0, |vals|) ==> CachedArray(cache, name, vals)[k] == cache[k]
    decreases |vals|
  {
    if vals != [] {
      CachedOthers(cache, name, vals[..|vals| - 1]);
    }
  }

  /** The cache after `cacheUniformArray`: the array's elements hold `vals`,
      everything else is unchanged. */
  lemma CachedArrayContents(cache: map<string, Vec3>, name: string, vals: seq<Vec3>)
    ensures CachedArray(cache, name, vals).Keys == cache.Keys + ElementNames(name, 0, |vals|)
    ensures forall i: nat :: i < |vals| ==>
              (ElementName(name, i) in CachedArray(cache, name, vals) && CachedArray(cache, name, vals)[ElementName(name, i)] == vals[i])
    ensures forall k :: k in cache && k !in ElementNames(name, 0, |vals|) ==> CachedArray(cache, name, vals)[k] == cache[k]
  {
    CachedOthers(cache, name, vals);
    forall i: nat | i < |vals|
      ensures ElementName(name, i) in CachedArray(cache, name, vals)
           && CachedArray(cache, name, vals)[ElementName(name, i)] == vals[i]
    {
      CachedElement(cache, name, vals, i);
    }
  }

  // ---------------------------------------------------------------------------
  // Refreshing after a rebuild.

  /** The vec3 uploads re-sent, in the order of `keys`, for the keys that have
      a cached value. */
  function Resends(keys: seq<string>, cache: map<string, Vec3>, location: string -> int): seq<Upload>
  {
    if keys == [] then []
    else
      var k := keys[|keys| - 1];
      Resends(keys[..|keys| - 1], cache, location) + (if k in cache then [Uniform3fv(location(k), cache[k])] else [])
  }

  lemma ResendsStep(keys: seq<string>, cache: map<string, Vec3>, location: string -> int, i: nat)
    requires i < |keys|
    ensures Resends(keys[..i + 1], cache, location)
         == Resends(keys[..i], cache, location) + (if keys[i] in cache then [Uniform3fv(location(keys[i]), cache[keys[i]])] else [])
  {
    assert keys[..i + 1][..i] == keys[..i];
  }

  /** Exactly the cached keys are re-sent, each with its new location. */
  lemma {:induction false} ResendsExactly(keys: seq<string>, cache: map<string, Vec3>, location: string -> int, u: Upload)
    ensures u in Resends(keys, cache, location)
        <==> exists k :: k in keys && k in cache && u == Uniform3fv(location(k), cache[k])
    decreases |keys|
  {
    if keys != [] {
      var init := keys[..|keys| - 1];
      ResendsExactly(init, cache, location, u);
      assert forall k :: k in keys <==> k in init || k == keys[|keys| - 1];
    }
  }

  /** When every cached name is in the table, reloading re-sends every cached
      vec3, each at its new location. */
  lemma CacheFullyResent(table: set<string>, cache: map<string, Vec3>, location: string -> int)
    requires cache.Keys <= table
    ensures forall k :: k in cache ==> Uniform3fv(location(k), cache[k]) in Resends(SortedKeys(table), cache, location)
  {
    forall k | k in cache
      ensures Uniform3fv(location(k), cache[k]) in Resends(SortedKeys(table), cache, location)
    {
      ResendsExactly(SortedKeys(table), cache, location, Uniform3fv(location(k), cache[k]));
    }
  }

  /** Re-sends that precede the binding uploads are among what was issued after
      `before`. */
  lemma ResentAfter(before: seq<Upload>, resent: seq<Upload>, issued: seq<Upload>, cache: map<string, Vec3>, location: string -> int)
    requires forall k :: k in cache ==> Uniform3fv(location(k), cache[k]) in resent
    ensures forall k :: k in cache ==> Uniform3fv(location(k), cache[k]) in (before + resent + issued)[|before|..]
  {
    assert (before + resent + issued)[|before|..] == resent + issued;
  }

  // ---------------------------------------------------------------------------
  // Uniform uploads.

  /** The call each overload of `uniform` issues at `location`; a bool is sent
      as the integer 0 or 1. */
  function UploadFor(location: int, value: UniformValue): (r: Upload)
    ensures r.location == location
  {
    match value
    case BoolValue(b) => Uniform1i(location, if b then 1 else 0)
    case IntValue(i) => Uniform1i(location, i)
    case FloatValue(f) => Uniform1f(location, f)
    case FloatArray(fs) => Uniform1fv(location, fs)
    case Vec2Value(v) => Uniform2fv(location, v)
    case Vec3Value(v) => Uniform3fv(location, v)
    case Vec4Value(v) => Uniform4fv(location, v)
    case Mat3Value(m) => UniformMatrix3fv(location, m)
    case Mat4Value(m) => UniformMatrix4fv(location, m)
  }

  /** The bool overload uploads what the int overload would for 0 or 1. */
  lemma BoolSentAsInt(location: int, b: bool)
    ensures UploadFor(location, BoolValue(b)) == UploadFor(location, IntValue(if b then 1 else 0))
    ensures UploadFor(location, BoolValue(b)).Uniform1i?
  {
  }

  /** The upload `uniform(name, value)` issues against `table`, if any. */
  function UniformUpload(table: map<string, int>, name: string, value: UniformValue): (r: Option<Upload>)
    ensures r.Some? <==> name in table
    ensures r.Some? ==> r.value.location == table[name]
  {
    if name in table then Some(UploadFor(table[name], value)) else None
  }

  function OptionUploads(o: Option<Upload>): seq<Upload>
  {
    match o
    case None => []
    case Some(u) => [u]
  }

  /** The texture-slot loop: one integer upload per binding, in the order of
      `keys`, at the name's location, inserting unknown names with location 0. */
  method BindTextures(table: map<string, int>, bindings: map<string, int>, keys: seq<string>)
    returns (newTable: map<string, int>, issued: seq<Upload>)
    requires forall k :: k in keys <==> k in bindings
    ensures newTable == InsertMissing(table, bindings.Keys)
    ensures issued == BindingUploads(table, bindings, keys)
  {
    newTable := table;
    issued := [];
    var i := 0;
    while i < |keys|
      invariant 0 <= i <= |keys|
      invariant table.Keys <= newTable.Keys <= table.Keys + bindings.Keys
      invariant forall k :: k in newTable ==> newTable[k] == Lookup(table, k)
      invariant forall j :: 0 <= j < i ==> keys[j] in newTable
      invariant issued == BindingUploads(table, bindings, keys[..i])
    {
      var name := keys[i];
      if name !in newTable {
        newTable := newTable[name := 0];
      }
      BindingStep(table, bindings, keys, i);
      issued := issued + [Uniform1i(newTable[name], bindings[name])];
      i := i + 1;
    }
    assert keys[..i] == keys;
    assert forall k :: k in bindings ==> k in newTable by {
      forall k | k in bindings
        ensures k in newTable
      {
        var j :| 0 <= j < |keys| && keys[j] == k;
      }
    }
  }

  /** The loop of `cacheUniformArray`: element `i` of array `name` is cached as
      `vals[i]` and uploaded at its location, inserted as 0 when unknown. */
  method StoreArray(table: map<string, int>, cache: map<string, Vec3>, name: string, vals: seq<Vec3>)
    returns (newTable: map<string, int>, newCache: map<string, Vec3>, issued: seq<Upload>)
    ensures newCache == CachedArray(cache, name, vals)
    ensures newTable == InsertMissing(table, ElementNames(name, 0, |vals|))
    ensures issued == ArrayUploads(table, name, vals)
  {
    newTable, newCache, issued := table, cache, [];
    var i := 0;
    while i < |vals|
      invariant 0 <= i <= |vals|
      invariant newCache == CachedArray(cache, name, vals[..i])
      invariant newTable.Keys == table.Keys + ElementNames(name, 0, i)
      invariant forall k :: k in newTable ==> newTable[k] == Lookup(table, k)
      invariant issued == ArrayUploads(table, name, vals[..i])
    {
      ArrayStep(cache, table, name, vals, i);
      var elementName := ElementName(name, i);
      newCache := newCache[elementName := vals[i]];
      if elementName !in newTable {
        newTable := newTable[elementName := 0];
      }
      issued := issued + [Uniform3fv(newTable[elementName], newCache[elementName])];
      i := i + 1;
    }
    assert vals[..i] == vals;
  }

  /** The first loop of `reload`: every key, in the order of `keys`, takes its
      location in the new program, and a key with a cached vec3 is sent again. */
  method Refresh(table: map<string, int>, cache: map<string, Vec3>, keys: seq<string>, location: string -> int)
    returns (newTable: map<string, int>, issued: seq<Upload>)
    requires forall k :: k in keys <==> k in table
    ensures newTable == LocationTable(table.Keys, location)
    ensures issued == Resends(keys, cache, location)
  {
    newTable, issued := table, [];
    var i := 0;
    while i < |keys|
      invariant 0 <= i <= |keys|
      invariant newTable.Keys == table.Keys
      invariant forall j :: 0 <= j < i ==> newTable[keys[j]] == location(keys[j])
      invariant issued == Resends(keys[..i], cache, location)
    {
      var name := keys[i];
      ResendsStep(keys, cache, location, i);
      newTable := newTable[name := location(name)];
      if name in cache {
        issued := issued + [Uniform3fv(newTable[name], cache[name])];
      }
      i := i + 1;
    }
    assert keys[..i] == keys;
    assert forall k :: k in newTable ==> newTable[k] == location(k) by {
      forall k | k in newTable
        ensures newTable[k] == location(k)
      {
        var j :| 0 <= j < |keys| && keys[j] == k;
      }
    }
  }

  // ---------------------------------------------------------------------------
  // The program object.

  class Program {
    const vertexName: string
    const fragmentName: string
    const geometryName: string
    var id: int
    /** Uniform name to location. */
    var uniforms: map<string, int>
    /** Cached vec3 array elements, by element name. */
    var vec3s: map<string, Vec3>
    /** Every uniform upload issued so far, oldest first. */
    var uploads: seq<Upload>

    /** Every cached vec3 belongs to a uniform of the table. */
    predicate Valid()
      reads this
    {
      vec3s.Keys <= uniforms.Keys
    }

    /** Wraps the linked program `id`, given its active uniforms, its location
        lookup and its texture bindings. */
    constructor (vertexName: string, fragmentName: string, geometryName: string, id: int,
                 records: seq<ActiveUniform>, location: string -> int, bindings: map<string, int>)
      ensures this.vertexName == vertexName && this.fragmentName == fragmentName && this.geometryName == geometryName
      ensures this.id == id && vec3s == map[]
      ensures Valid()
      ensures uniforms == InsertMissing(LocationTable(RegisteredNames(records), location), bindings.Keys)
      ensures uploads == BindingUploads(LocationTable(RegisteredNames(records), location), bindings, SortedKeys(bindings.Keys))
    {
      this.vertexName := vertexName;
      this.fragmentName := fragmentName;
      this.geometryName := geometryName;
      this.id := id;
      var table := RegisterUniforms(records, location);
      var bound, issued := BindTextures(table, bindings, SortedKeys(bindings.Keys));
      uniforms := bound;
      vec3s := map[];
      uploads := issued;
    }

    /** `cacheUniformArray(name, vals)`. */
    method CacheUniformArray(name: string, vals: seq<Vec3>)
      requires Valid()
      modifies this
      ensures Valid()
      ensures vec3s == CachedArray(old(vec3s), name, vals)
      ensures uniforms == InsertMissing(old(uniforms), ElementNames(name, 0, |vals|))
      ensures uploads == old(uploads) + ArrayUploads(old(uniforms), name, vals)
      ensures id == old(id)
    {
      var table, cache, issued := StoreArray(uniforms, vec3s, name, vals);
      CachedArrayContents(vec3s, name, vals);
      uniforms, vec3s, uploads := table, cache, uploads + issued;
    }

    /** `reload`: rebinds to the rebuilt program `newId`, whose location lookup
        is `location` and whose texture bindings are `bindings`. */
    method Reload(newId: int, location: string -> int, bindings: map<string, int>)
      requires Valid()
      modifies this
      ensures Valid()
      ensures id == newId && vec3s == old(vec3s)
      ensures uniforms == InsertMissing(LocationTable(old(uniforms).Keys, location), bindings.Keys)
      ensures uploads == old(uploads) + Resends(SortedKeys(old(uniforms).Keys), vec3s, location)
                                      + BindingUploads(LocationTable(old(uniforms).Keys, location), bindings, SortedKeys(bindings.Keys))
      ensures forall k :: k in vec3s ==> Uniform3fv(location(k), vec3s[k]) in uploads[|old(uploads)|..]
    {
      id := newId;
      var refreshed, resent := Refresh(uniforms, vec3s, SortedKeys(uniforms.Keys), location);
      var bound, issued := BindTextures(refreshed, bindings, SortedKeys(bindings.Keys));
      CacheFullyResent(uniforms.Keys, vec3s, location);
      ResentAfter(uploads, resent, issued, vec3s, location);
      uniforms, uploads := bound, uploads + resent + issued;
    }

    /** Every overload of `uniform`: one upload when `name` is in the table,
        nothing otherwise. */
    method Uniform(name: string, value: UniformValue)
      requires Valid()
      modifies this
      ensures Valid()
      ensures uploads == old(uploads) + OptionUploads(UniformUpload(uniforms, name, value))
      ensures uniforms == old(uniforms) && vec3s == old(vec3s) && id == old(id)
    {
      if name in uniforms {
        uploads := uploads + [UploadFor(uniforms[name], value)];
      }
    }
  }
}
