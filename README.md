# Rendu core: configuration parsing, shader uniform tables, island frame logic

A Dafny model of three pieces of the Rendu rendering engine, with the GPU,
the file system and the window abstracted away.

- **Configuration** (`config.dfy`, module `Configuration`; string helpers in
  `text.dfy`, module `Text`). `Config` reads the argument vector: nothing to
  parse, a configuration file (`-c path` / `--config path`), or the arguments
  themselves, grouped as a key followed by the run of arguments that do not
  start with a dash. The table is a `map<string, seq<string>>` with `std::map`
  behaviour: assignment overwrites, iteration visits keys in increasing
  `std::string` order (`Text.SortedKeys`). `RenderingConfig` then maps known
  keys onto rendering settings. `TextUtilities::trim` is modelled as removing
  leading and trailing characters of a set; `std::stoi` only on non-empty
  decimal digit strings; the file system is a `map<string, string>`.
- **Shader program** (`program.dfy`, module `ShaderProgram`). The class
  `Program` holds the uniform table (`map<string, int>`), the vec3 cache
  (`map<string, Vec3>`) and a log of the uniform uploads it issues. The
  driver is an input: the list of active uniforms as `(name, size)` records,
  a location function and the texture bindings reported at link time.
- **Island renderer** (`island_frame.dfy`, module `IslandFrame`, and
  `island_app.dfy`, module `IslandApp`). The fixed-function state is a record
  (depth test, depth function, depth writes, blending, polygon mode, culling
  and culled face); a frame is an append-only log of events (cube faces,
  shadow regeneration, terrain cells, water copy, blur, blit, surface,
  underwater effect, far ocean, sky, tonemap), each stored with the state in
  force. `IslandFrame` gives the frame as functions and proves pass selection
  and state discipline; the class `IslandApp.Island` draws it step by step,
  generates the Gerstner waves into an `array<Wave>` and sizes its buffers.

Two details of the code the model keeps:

- Under water, the surface is drawn with **front** faces culled and back-face
  culling is restored afterwards (IslandApp.cpp:234-236, 274-275); above water
  culling is left as it was.
- `resize` halves the resolution in floating point before the framebuffer
  converts it; the constructor halves the truncated integer. Both give the
  same sizes (`IslandApp.ResizeMatchesConstruction`).

## Model

| member | source | states |
|---|---|---|
| `Text.TrimShape` | src/engine/Config.cpp:21 | trim returns a middle slice; everything removed is in the trimmed set, and the result neither starts nor ends with a trimmed character |
| `Text.TrimIdempotent` | src/engine/Config.cpp:69 | trimming a trimmed string changes nothing |
| `Text.TrimEmpty` | src/engine/Config.cpp:70 | trim yields the empty string iff every character is in the trimmed set |
| `Text.FindFrom` | src/engine/Config.cpp:74 | `find_first_of` returns the first occurrence at or after the start, or npos when there is none |
| `Text.Split` | src/engine/Config.cpp:84-94 | splitting on single spaces gives one more piece than there are separators, and no piece contains the separator |
| `Text.JoinSplit` | src/engine/Config.cpp:84-94 | joining the pieces with the separator gives the string back |
| `Text.SplitJoin` | src/engine/Config.cpp:84-94 | splitting a join of separator-free pieces gives the pieces back |
| `Text.SortedKeys` | src/engine/Config.cpp:39 | the map's iteration order lists every key exactly once |
| `Text.SortedKeysSorted` | src/engine/Config.cpp:130 | that list is strictly increasing in `std::string` order |
| `Text.Stoi` | src/engine/Config.cpp:141 | `stoi` succeeds exactly on non-empty digit strings whose value fits in an `int`, and returns their decimal value |
| `Text.StoiNatToString` | src/engine/Config.cpp:143 | reading back a printed non-negative number gives the number |
| `Text.NatToStringInjective` | src/engine/graphics/Program.cpp:46 | `to_string` gives different numbers different texts |
| `Configuration.NextLine` | src/engine/Config.cpp:67 | one `getline` cuts the text at its first newline, and the line holds no newline |
| `Configuration.LinesAreNewlinePieces` | src/engine/Config.cpp:65-67 | the lines are the newline-separated pieces, without an empty last line after a final newline |
| `Configuration.SplitValues` | src/engine/Config.cpp:84-94 | the value loop collects exactly the space-separated pieces after the key |
| `Configuration.ParseLine` | src/engine/Config.cpp:69-99 | one loop iteration yields the entry `LineEntry` describes: none for blank lines or empty keys |
| `Configuration.ParseFromFile` | src/engine/Config.cpp:58-101 | the table after reading a file is the table with every line's entry stored in order |
| `Configuration.EmptyFileNoArguments` | src/engine/Config.cpp:61-64 | an empty or missing file leaves the table unchanged |
| `Configuration.BlankLineSkipped` | src/engine/Config.cpp:69-72 | a blank or space-only line contributes nothing |
| `Configuration.OnOffLine` | src/engine/Config.cpp:77-79 | a trimmed line without a space gives the key `trim(line, "-")` with no values |
| `Configuration.SplitLineRoundTrip` | src/engine/Config.cpp:80-95 | for a line with spaces, values count the spaces, and key part + space + joined values rebuild the line |
| `Configuration.DoubleSpaceGivesEmptyValue` | src/engine/Config.cpp:86-91 | two consecutive spaces produce an empty value |
| `Configuration.FileNeverStoresEmptyKey` | src/engine/Config.cpp:97-99 | reading a file never stores the empty key |
| `Configuration.FileLastLineWins` | src/engine/Config.cpp:98 | the last line naming a key decides its values |
| `Configuration.CollectValues` | src/engine/Config.cpp:113-117 | the inner loop takes the maximal run of arguments not starting with a dash |
| `Configuration.ParseFromArgs` | src/engine/Config.cpp:104-121 | the loop as written: it finishes with the grouped table, or spins at a key that trims to nothing |
| `Configuration.SpinsOnlyOnEmptyKey` | src/engine/Config.cpp:107-110 | the as-written loop spins if and only if some key position (the start, or a later argument starting with a dash) holds an argument that trims to nothing, and it spins at the first such position |
| `Configuration.LoneDashSpins` | src/engine/Config.cpp:108-110 | `app --` makes the as-written loop spin at position 1 |
| `Configuration.ArgsIgnoreProgramName` | src/engine/Config.cpp:105 | the as-written loop does not look at `argv[0]` |
| `Configuration.ParseFromArgsFixed` | src/engine/Config.cpp:104-121 | the corrected loop gives the grouped table `ArgsFromFixed` |
| `Configuration.FixedAgreesWhenFinished` | src/engine/Config.cpp:104-121 | whenever the as-written loop finishes, the corrected loop gives the same table |
| `Configuration.FixedIgnoresProgramName` | src/engine/Config.cpp:105 | the corrected loop does not look at `argv[0]` |
| `Configuration.FixedNeverStoresEmptyKey` | src/engine/Config.cpp:107-118 | the corrected loop never stores the empty key |
| `Configuration.FixedKeyGetsItsRun` | src/engine/Config.cpp:111-118 | a key gets the maximal run of following non-dash arguments unless a later key position names it again |
| `Configuration.FixedReachesKeyPosition` | src/engine/Config.cpp:105-120 | the loop passes through every later argument that starts with a dash as a key position |
| `Configuration.EveryKeyGetsItsRun` | src/engine/Config.cpp:104-121 | in the table built from `argv[1]` on, every key position whose key no later key position repeats holds the maximal run of following arguments that do not start with a dash |
| `Configuration.FixedKeepsKey` | src/engine/Config.cpp:118 | later groups with other keys leave a key's values alone |
| `Configuration.FixedValuesHaveNoDash` | src/engine/Config.cpp:114-115 | no stored value starts with a dash |
| `Configuration.ModeOf` | src/engine/Config.cpp:15-33 | fewer than two entries means nothing to parse; file mode is chosen exactly when `argv[1]` trims to `c` or `config`, with the path missing exactly when there is no `argv[2]`, and the path is `argv[2]` |
| `Configuration.DispatchCases` | src/engine/Config.cpp:15-33 | the raw table is empty below two entries or for `-c` without a path, the file's table in file mode, the grouped arguments otherwise |
| `Configuration.Config.constructor` | src/engine/Config.cpp:13-55 | the raw table, and logging settings untouched on the early returns, set from `log-path` and `verbose` otherwise |
| `Configuration.ExtractLogging` | src/engine/Config.cpp:39-48 | the key loop finds the first value of `log-path` and whether `verbose` is present |
| `Configuration.HandlingOf` | src/engine/Config.cpp:134-149 | each key and its alias select their branch of the if-chain |
| `Configuration.ReadInt` | src/engine/Config.cpp:141-144 | reading `values[i]` as a number fails when the value is missing or not a number |
| `Configuration.UnknownKeyIgnored` | src/engine/Config.cpp:130-150 | a key outside the known ones changes nothing |
| `Configuration.ApplyKeyError` | src/engine/Config.cpp:140-145 | handling a key fails exactly when its values are unusable, and then changes no setting |
| `Configuration.ApplyKeysSucceeds` | src/engine/Config.cpp:130-150 | the key loop succeeds iff every key's values are usable |
| `Configuration.ApplyKeysClosedForm` | src/engine/Config.cpp:130-150 | a successful loop gives vsync off for `novsync`/`no-vsync`, rate 30 for `half-rate`, and width, height and resolution from the last key of their kind |
| `Configuration.LastResolutionKey` | src/engine/Config.cpp:140 | among sorted keys holding both spellings, `ivr` is the last resolution key |
| `Configuration.IvrWins` | src/engine/Config.cpp:140-141 | with both `internal-res` and `ivr`, the `ivr` value wins |
| `Configuration.RenderingConfig.constructor` | src/engine/Config.cpp:123-125 | settings are the defaults processed by the parsed table |
| `Configuration.RenderingConfig.ProcessArguments` | src/engine/Config.cpp:128-151 | the settings become the keys' processing in map order |
| `Configuration.RenderingConfig.ApplyAll` | src/engine/Config.cpp:130-150 | the loop applies the keys in order and stops at the first error |
| `Configuration.RenderingConfig.ApplyOne` | src/engine/Config.cpp:131-149 | one iteration assigns exactly the fields its branch names |
| `ShaderProgram.GeometryRequestedIff` | src/engine/graphics/Program.cpp:10-12 | files are `v.vert` and `f.frag`; `g.geom` is requested iff the geometry name is non-empty |
| `ShaderProgram.DebugNameListsStages` | src/engine/graphics/Program.cpp:13 | the debug name is the named stages in pipeline order, comma-separated, in parentheses |
| `ShaderProgram.BinaryPath` | src/engine/graphics/Program.cpp:113-131 | nothing is written iff there is no binary format or the binary length is at most 0 |
| `ShaderProgram.BinaryPathNamesFormat` | src/engine/graphics/Program.cpp:130 | different binary formats are written to different files |
| `ShaderProgram.PrefixAloneKept` | src/engine/graphics/Program.cpp:34 | a record named exactly `gl_` is kept; a longer `gl_` name is skipped |
| `ShaderProgram.ArrayBase` | src/engine/graphics/Program.cpp:43 | the array name is the prefix before the first `[` |
| `ShaderProgram.ArrayBaseOfElement` | src/engine/graphics/Program.cpp:43-46 | the array name of `base[j]` is `base` |
| `ShaderProgram.ElementNameInjective` | src/engine/graphics/Program.cpp:46 | different subscripts give different element names |
| `ShaderProgram.ElementNamesSpec` | src/engine/graphics/Program.cpp:45-48 | the element names added are exactly `base[lo]` to `base[hi-1]` |
| `ShaderProgram.RegisteredNamesSpec` | src/engine/graphics/Program.cpp:25-50 | a name is registered iff some record contributes it |
| `ShaderProgram.ArrayFullyRegistered` | src/engine/graphics/Program.cpp:39-48 | a kept array record `base[0]` of size n registers `base[0]` to `base[n-1]` |
| `ShaderProgram.RegisterUniforms` | src/engine/graphics/Program.cpp:25-50 | the table maps every registered name to its location and nothing else |
| `ShaderProgram.InsertMissing` | src/engine/graphics/Program.cpp:53 | `operator[]` adds missing names and keeps the other keys |
| `ShaderProgram.BindTextures` | src/engine/graphics/Program.cpp:52-55 | one integer upload per binding; unknown names are inserted with location 0 |
| `ShaderProgram.StoreArray` | src/engine/graphics/Program.cpp:64-68 | the cache gains the array's elements, unknown element names enter the table with location 0 |
| `ShaderProgram.CachedElement` | src/engine/graphics/Program.cpp:65-66 | after caching, element `i` of the array holds `vals[i]` |
| `ShaderProgram.CachedOthers` | src/engine/graphics/Program.cpp:64-68 | caching adds exactly the element names and leaves other entries alone |
| `ShaderProgram.CachedArrayContents` | src/engine/graphics/Program.cpp:64-68 | the cache after `cacheUniformArray`: the elements hold `vals`, every other entry unchanged |
| `ShaderProgram.Refresh` | src/engine/graphics/Program.cpp:83-88 | the loop over the table's keys keeps the key set, gives each key its new location, and re-sends exactly those listed keys that have a cached vec3 |
| `ShaderProgram.ResendsExactly` | src/engine/graphics/Program.cpp:85-86 | an upload is re-sent exactly when it is the cached vec3 of a listed key that has one, at that key's new location |
| `ShaderProgram.UploadFor` | src/engine/graphics/Program.cpp:141-193 | every overload uploads at the name's location |
| `ShaderProgram.BoolSentAsInt` | src/engine/graphics/Program.cpp:141-145 | the bool overload sends the integer 0 or 1 |
| `ShaderProgram.UniformUpload` | src/engine/graphics/Program.cpp:141-193 | an upload happens iff the name is in the table |
| `ShaderProgram.CacheFullyResent` | src/engine/graphics/Program.cpp:83-88 | when every cached name is in the table, the re-sends cover every cached vec3, each at its new location |
| `ShaderProgram.Program.constructor` | src/engine/graphics/Program.cpp:6-59 | the table holds the registered names at their locations plus the binding names, the binding uploads are logged, the cache is empty, and every cached name is in the table (`Valid`) |
| `ShaderProgram.Program.CacheUniformArray` | src/engine/graphics/Program.cpp:61-71 | the cache and table after storing an array, one upload per element, and every cached name still in the table |
| `ShaderProgram.Program.Reload` | src/engine/graphics/Program.cpp:73-95 | the key set is kept apart from binding names; locations refreshed; every cached vec3 is re-sent at its new location among the uploads this call issues; the cache is unchanged and every cached name is still in the table |
| `ShaderProgram.Program.Uniform` | src/engine/graphics/Program.cpp:141-193 | a setter on an unknown name changes nothing, a known one appends one upload, and the table and cache stay as they were |
| `IslandApp.Truncate` | src/apps/island/IslandApp.cpp:13 | `uint(x)` is the integer part of a non-negative float |
| `IslandApp.TruncateHalf` | src/apps/island/IslandApp.cpp:458-459 | halving before or after truncation gives the same size |
| `IslandApp.ResizeMatchesConstruction` | src/apps/island/IslandApp.cpp:455-460 | resize gives the constructor's sizes: scene and positions at full size, both effect buffers at half |
| `IslandApp.HalfSizeExamples` | src/apps/island/IslandApp.cpp:13-16 | 1920x1080 gives 960x540 effect buffers and 1280x720 gives 640x360 |
| `IslandApp.SlotNormalised` | src/apps/island/IslandApp.cpp:82-107 | `Q * (A*w*8) == Q_raw`; A, w and Q_raw lie in their ranges, Q > 0, the active flag is kept |
| `IslandApp.NewWave` | src/apps/island/IslandApp.cpp:83-93 | one loop iteration writes the slot's sampled and normalised parameters |
| `IslandApp.Island.GenerateWaves` | src/apps/island/IslandApp.cpp:73-109 | every slot 0..7 is replaced by its generated wave |
| `IslandApp.Island.constructor` | src/apps/island/IslandApp.cpp:5-71 | buffers sized from the rendering resolution, depth test on, waves generated |
| `IslandApp.Island.Resize` | src/apps/island/IslandApp.cpp:455-460 | buffers are resized to full and half resolution |
| `IslandApp.Island.LightDirectionEdited` | src/apps/island/IslandApp.cpp:390-393 | editing the light marks the sky dirty |
| `IslandApp.Island.SetDepthOnly` | src/apps/island/IslandApp.cpp:124 | the one-argument depth setter changes only the enable bit |
| `IslandApp.Island.DrawWire` | src/apps/island/IslandApp.cpp:196-203 | the overlay is LINE/LEQUAL around its draw and FILL/LESS afterwards |
| `IslandApp.Island.UpdateSkyPass` | src/apps/island/IslandApp.cpp:123-143 | six faces then the shadow map when dirty, and the flag is cleared |
| `IslandApp.Island.GroundPass` | src/apps/island/IslandApp.cpp:152-206 | each visible cell is drawn, with its overlay when wireframes are shown |
| `IslandApp.Island.WaterEffectsPass` | src/apps/island/IslandApp.cpp:212-229 | copy with depth off, then blur and blit with depth on |
| `IslandApp.Island.OceanPass` | src/apps/island/IslandApp.cpp:209-358 | the ocean block in the order the frame model gives |
| `IslandApp.Island.SkyAndPresent` | src/apps/island/IslandApp.cpp:360-379 | the sky pass when selected, then the tonemap |
| `IslandApp.Island.DrawPasses` | src/apps/island/IslandApp.cpp:111-380 | the passes of `draw` produce the frame `DrawFrame` describes |
| `IslandApp.Island.Draw` | src/apps/island/IslandApp.cpp:111-379 | the frame's actions, each in the state it needs, the state restored, the dirty flag cleared |
| `IslandApp.DrawnFrame` | src/apps/island/IslandApp.cpp:111-380 | a frame's actions, final state and per-event states together |
| `IslandFrame.FaceListAt` | src/apps/island/IslandApp.cpp:133-138 | the cube faces are drawn in order 0 to 5 |
| `IslandFrame.FrameActions` | src/apps/island/IslandApp.cpp:111-380 | a frame's actions are its segments' actions in order |
| `IslandFrame.CellsActions` | src/apps/island/IslandApp.cpp:182-204 | the cells loop draws visible cells and their overlays, in cell order |
| `IslandFrame.OceanActions` | src/apps/island/IslandApp.cpp:211-357 | the ocean block's actions in order |
| `IslandFrame.WireOverlayKeeps` | src/apps/island/IslandApp.cpp:265-272 | an overlay draws lines with LEQUAL and restores fill with LESS |
| `IslandFrame.CellsKeep` | src/apps/island/IslandApp.cpp:182-204 | the terrain loop leaves the state as it found it |
| `IslandFrame.SurfaceKeeps` | src/apps/island/IslandApp.cpp:234-272 | the surface is drawn with LESS, culling front faces exactly under water |
| `IslandFrame.UnderwaterTailKeeps` | src/apps/island/IslandApp.cpp:274-318 | under water, back-face culling is restored and the state ends at rest |
| `IslandFrame.FarOceanTailKeeps` | src/apps/island/IslandApp.cpp:321-355 | the far ocean is drawn with ALWAYS and the depth function ends as LESS |
| `IslandFrame.OceanKeeps` | src/apps/island/IslandApp.cpp:209-357 | the ocean block leaves LESS, fill and back faces |
| `IslandFrame.FrameDiscipline` | src/apps/island/IslandApp.cpp:111-379 | from the resting state, every event runs in the state its kind requires and the frame ends at rest |
| `IslandFrame.SkyUpdateFirst` | src/apps/island/IslandApp.cpp:123-143 | a dirty sky gives faces 0..5 then one shadow regeneration, first; a clean one gives neither |
| `IslandFrame.OceanCounts` | src/apps/island/IslandApp.cpp:211-357 | the ocean block copies twice under water and once above, far ocean only above |
| `IslandFrame.WaterPassCounts` | src/apps/island/IslandApp.cpp:210-357 | copy, blur and blit run twice under water, once above, never without the ocean; the far ocean only above |
| `IslandFrame.SkyDomeCount` | src/apps/island/IslandApp.cpp:361 | the sky is drawn iff `showSky && !(showOcean && underwater)` |
| `IslandFrame.SurfaceLevelIsAbove` | src/apps/island/IslandApp.cpp:210 | a camera at height exactly 0 is above water |

## Findings

| source | as written | input that shows it | evidently intended | confidence | as-written member | corrected member |
|---|---|---|---|---|---|---|
| src/engine/Config.cpp:107-110 | `continue` on a key that trims to empty does not advance `argi`, so the loop repeats the same iteration for ever | `app --` (or any key-position argument made only of dashes) | skip the empty key and its values, as the file parser does. The other one-line fix, `++argi; continue;`, would read the following values as keys instead; the file parser decides between them, because there a line whose key trims to nothing stores nothing, values included (Config.cpp:97-99) | high (not executed) | `Configuration.LoneDashSpins` | `Configuration.ParseFromArgsFixed` |

`Configuration.ParseFromArgs` models the loop as written and reports the spin
as an outcome; `Config` uses the corrected loop, which agrees with the
as-written one wherever that one finishes (`Configuration.FixedAgreesWhenFinished`).

## Left out

- src/engine/system/Window.cpp, the generated documentation index files and the declaration-only headers are not part of this model: they hold window and library I/O or no bodies.
- GL calls are abstract: active-uniform queries, locations and texture bindings are inputs; uploads are log entries; program creation, validation (`Program::validate`), `use`, `clean`, binary readback and file writing are not modelled beyond the binary file name.
- `Configuration.ReadInt`: `std::stoi` is modelled only on non-empty decimal digit strings up to 2^31-1; signs, leading blanks and trailing characters that `std::stoi` tolerates are reported as errors instead.
- `Configuration.Config.constructor`: reading `values[0]` of an empty `log-path` list, and `values[i]` or a throwing `std::stoi` in `processArguments`, are undefined behaviour or exceptions in C++; the model records an `ArgumentError` and stops.
- `Configuration.Config.constructor`: `Log::setDefaultFile` and `Log::setDefaultVerbose` are recorded as the fields `logFile` and `logVerbose`, not performed.
- The default values of the rendering settings and of the island toggles and waves are declared in headers that are not part of this model; they are constructor parameters.
- `IslandApp.SlotWave`: floats are reals, so rounding is not modelled; `Random::Float` draws are an input sequence constrained to each call's range; `cos` and `sin` are function parameters, so the direction vector is only known to be `(cos(angle), sin(angle))`.
- IslandApp drawing: shader uniforms and texture bindings of each pass, matrices, the tessellation options, Perlin noise, `Frustum::intersects` (each cell's test result is an input), `Terrain`, `Framebuffer` and blur internals, timing and the ImGui editing of `update()` other than the light-direction dirty flag.
- `IslandApp.Island.constructor`: the state starts as the GL defaults with the depth test on. This assumes that `GLUtilities::setup` (Window.cpp) and the `Terrain` constructor, both of which run before `setDepthState(true)`, leave the depth function, depth writes, blending, polygon mode and culled face at their defaults. Their code is not part of this model.
- `IslandApp.Island.Draw`: each frame starts from the state the previous frame left. This assumes that the blur's `process` inside a frame, and the ImGui rendering and window code between frames (Window.cpp), restore any pipeline state they change. Their code is not part of this model.
- `IslandApp.Island.Resize`: `Framebuffer::resize` is not part of this model; it is assumed to truncate each axis to an unsigned integer, as the constructor's `uint(...)` does.
- `IslandApp::clean` and the release of GPU resources are not modelled.
