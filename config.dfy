/**
 * The command-line and configuration-file front end of the engine
 * (src/engine/Config.cpp).
 *
 * `Config` turns the program's argument vector into a table from keys to
 * value lists, either by reading a configuration file (`-c path` or
 * `--config path`) or by grouping the arguments directly; it then picks the
 * logging settings out of the table. `RenderingConfig` maps known keys onto
 * rendering settings. The table is a std::map: assignment overwrites, and
 * iteration visits the keys in increasing std::string order.
 */
module Configuration {
  import opened Wrappers
  import opened Text

  type Arguments = map<string, seq<string>>

  const Dash: set<char> := {'-'}
  const Space: set<char> := {' '}

  /** A key and the values that follow it. */
  datatype Entry = Entry(key: string, values: seq<string>)

  /** Where the C++ reads a missing vector element or std::stoi throws. */
  datatype ArgumentError =
    | MissingValue(key: string, index: nat)
    | NotANumber(key: string, text: string)

  // ===========================================================================
  // Configuration files (parseFromFile)

  /** What one std::getline extracts: the text before the first newline and
      what follows that newline. */
  datatype Cut = Cut(line: string, rest: string)

  function NextLine(s: string): (c: Cut)
    requires s != []
    ensures '\n' !in c.line
    ensures |c.rest| < |s|
    ensures s == c.line || s == c.line + "\n" + c.rest
  {
    match FindFrom(s, '\n', 0)
    case None => Cut(s, [])
    case Some(i) =>
      assert s == s[..i] + "\n" + s[i + 1..];
      Cut(s[..i], s[i + 1..])
  }

  /** The lines std::getline produces from `s`, one after the other. */
  function Lines(s: string): seq<string>
    decreases |s|
  {
    if s == [] then [] else var c := NextLine(s); [c.line] + Lines(c.rest)
  }

  /** `s` without one final newline, if it ends in one. */
  function Chomp(s: string): (r: string)
    ensures r == s || (s == r + "\n")
  {
    if s != [] && s[|s| - 1] == '\n' then s[..|s| - 1] else s
  }

  /** std::getline splits at every newline, except that a final newline does not
      start an empty last line; an empty text has no lines at all. */
  lemma {:induction false} LinesAreNewlinePieces(s: string)
    requires s != []
    ensures Lines(s) == Split(Chomp(s), '\n')
    decreases |s|
  {
    match FindFrom(s, '\n', 0)
    case None =>
      assert Chomp(s) == s[0..];
      SplitSuffixLast(s, '\n', 0);
    case Some(i) =>
      var rest := s[i + 1..];
      assert Lines(s) == [s[..i]] + Lines(rest);
      if rest == [] {
        LastLineChomped(s, i);
      } else {
        LinesAreNewlinePieces(rest);
        InnerLineChomped(s, i);
      }
  }

  lemma LastLineChomped(s: string, i: nat)
    requires FindFrom(s, '\n', 0) == Some(i) && i + 1 == |s|
    ensures Split(Chomp(s), '\n') == [s[..i]]
  {
    var t := Chomp(s);
    assert t == s[..i] == t[0..];
    assert FindFrom(t, '\n', 0).None?;
    SplitSuffixLast(t, '\n', 0);
  }

  lemma InnerLineChomped(s: string, i: nat)
    requires FindFrom(s, '\n', 0) == Some(i) && i + 1 < |s|
    ensures Split(Chomp(s), '\n') == [s[..i]] + Split(Chomp(s[i + 1..]), '\n')
  {
    var t := Chomp(s);
    ChompSlices(s, i);
    assert FindFrom(t, '\n', 0) == Some(i) by {
      forall k | 0 <= k < i ensures t[k] != '\n' {
        assert t[k] == s[k];
      }
      FindFromAt(t, '\n', 0, i);
    }
    SplitUnfold(t, '\n', i);
  }

  /** Dropping a final newline from `s` and from a suffix of `s` cuts both at the same place. */
  lemma ChompSlices(s: string, i: nat)
    requires i + 1 < |s|
    ensures i < |Chomp(s)| && Chomp(s) == s[..|Chomp(s)|]
    ensures Chomp(s)[..i] == s[..i]
    ensures Chomp(s)[i + 1..] == Chomp(s[i + 1..])
  {
    var rest := s[i + 1..];
    assert rest[|rest| - 1] == s[|s| - 1];
    if s[|s| - 1] == '\n' {
      assert rest[..|rest| - 1] == s[i + 1..|s| - 1];
    } else {
      assert rest == s[i + 1..|s|];
    }
  }

  /** What one line of a configuration file contributes: nothing for a line that
      is blank after trimming spaces or whose key trims to nothing; otherwise the
      key and the values separated by single spaces. */
  function LineEntry(line: string): Option<Entry>
  {
    var clean := Trim(line, Space);
    if clean == [] then None
    else
      var e := match FindFrom(clean, ' ', 0)
        case None => Entry(Trim(clean, Dash), [])
        case Some(p) => Entry(Trim(clean[..p], Dash), Split(clean[p + 1..], ' '));
      if e.key == [] then None else Some(e)
  }

  /** `arguments[key] = values`, when there is an entry. */
  function Store(args: Arguments, e: Option<Entry>): Arguments
  {
    match e
    case None => args
    case Some(en) => args[en.key := en.values]
  }

  function StoreLines(args: Arguments, lines: seq<string>): Arguments
    decreases |lines|
  {
    if lines == [] then args else StoreLines(Store(args, LineEntry(lines[0])), lines[1..])
  }

  /** The table after parsing the text of a configuration file. */
  function FileArguments(args: Arguments, content: string): Arguments
  {
    StoreLines(args, Lines(content))
  }

  /** The value loop of parseFromFile: the pieces of `lineClean` from `start` on,
      cut at every single space; the text after the last space is the last value. */
  method SplitValues(lineClean: string, start: nat) returns (values: seq<string>)
    requires start <= |lineClean|
    ensures values == Split(lineClean[start..], ' ')
  {
    values := [];
    var beginPos := start;
    var afterEndPos := FindFrom(lineClean, ' ', beginPos);
    ghost var pieces := Split(lineClean[start..], ' ');
    while afterEndPos.Some?
      invariant start <= beginPos <= |lineClean|
      invariant afterEndPos == FindFrom(lineClean, ' ', beginPos)
      invariant values + Split(lineClean[beginPos..], ' ') == pieces
      decreases |lineClean| - beginPos
    {
      var afterEnd := afterEndPos.value;
      var value := lineClean[beginPos..afterEnd];
      ghost var rest := Split(lineClean[afterEnd + 1..], ' ');
      SplitSuffixNext(lineClean, ' ', beginPos, afterEnd);
      assert Split(lineClean[beginPos..], ' ') == [value] + rest;
      assert values + ([value] + rest) == (values + [value]) + rest;
      values := values + [value];
      beginPos := afterEnd + 1;
      afterEndPos := FindFrom(lineClean, ' ', beginPos);
      assert lineClean[beginPos..] == lineClean[afterEnd + 1..];
      assert values + rest == pieces;
    }
    // There is one remaining value, the last one.
    SplitSuffixLast(lineClean, ' ', beginPos);
    values := values + [lineClean[beginPos..]];
  }

  /** One iteration of the getline loop: trim, skip blanks, split off the key at
      the first space, split the rest at every single space. */
  method ParseLine(line: string) returns (entry: Option<Entry>)
    ensures entry == LineEntry(line)
  {
    var lineClean := Trim(line, Space);
    if lineClean == [] {
      return None;
    }
    var spacePos := FindFrom(lineClean, ' ', 0);
    var values: seq<string> := [];
    var firstArg: string;
    if spacePos.None? {
      // An on/off argument.
      firstArg := Trim(lineClean, Dash);
    } else {
      // Split the whole line.
      firstArg := Trim(lineClean[..spacePos.value], Dash);
      values := SplitValues(lineClean, spacePos.value + 1);
    }
    entry := if firstArg == [] then None else Some(Entry(firstArg, values));
  }

  /** Config::parseFromFile on the text of the file (an empty text stands for a
      missing or empty file). `arguments` is the table passed by reference. */
  method ParseFromFile(content: string, arguments: Arguments) returns (result: Arguments)
    ensures result == FileArguments(arguments, content)
  {
    result := arguments;
    if content == [] {
      // Missing or empty file: keep the defaults.
      return;
    }
    var remaining := content;
    while remaining != []
      invariant StoreLines(arguments, Lines(content)) == StoreLines(result, Lines(remaining))
      decreases |remaining|
    {
      var cut := NextLine(remaining);
      remaining := cut.rest;
      var entry := ParseLine(cut.line);
      if entry.Some? {
        result := result[entry.value.key := entry.value.values];
      }
    }
  }

  // ---- properties of a configuration file ---------------------------------

  /** A line made only of spaces (or nothing) contributes nothing. */
  lemma BlankLineSkipped(line: string)
    requires forall i :: 0 <= i < |line| ==> line[i] == ' '
    ensures LineEntry(line) == None
  {
    TrimEmpty(line, Space);
  }

  /** A trimmed line without a space is an on/off key with no values. */
  lemma OnOffLine(line: string)
    requires Trim(line, Space) != []
    requires ' ' !in Trim(line, Space)
    requires Trim(Trim(line, Space), Dash) != []
    ensures LineEntry(line) == Some(Entry(Trim(Trim(line, Space), Dash), []))
  {
    var clean := Trim(line, Space);
    FindFromNone(clean, ' ', 0);
  }

  /** For a trimmed line with a space, the values are the pieces after the first
      space: there are exactly as many values as spaces in the line, and key part,
      one space and the values joined by spaces give the line back. */
  lemma SplitLineRoundTrip(line: string)
    requires Trim(line, Space) != []
    requires ' ' in Trim(line, Space)
    requires LineEntry(line).Some?
    ensures var clean, values := Trim(line, Space), LineEntry(line).value.values;
      var p := FindFrom(clean, ' ', 0).value;
      && |values| == Count(clean, ' ')
      && clean == clean[..p] + " " + Join(values, ' ')
      && LineEntry(line).value.key == Trim(clean[..p], Dash)
  {
    var clean := Trim(line, Space);
    var f := FindFrom(clean, ' ', 0);
    assert f.Some? by {
      var k :| 0 <= k < |clean| && clean[k] == ' ';
    }
    var p := f.value;
    var rest := clean[p + 1..];
    assert LineEntry(line).value.values == Split(rest, ' ');
    JoinSplit(rest, ' ');
    assert clean == clean[..p] + " " + rest;
    CountNone(clean[..p], ' ');
    CountAppend(clean[..p], " ", ' ');
    CountAppend(clean[..p] + " ", rest, ' ');
  }

  /** Two consecutive spaces between values produce an empty value. */
  lemma DoubleSpaceGivesEmptyValue(a: string, b: string)
    requires ' ' !in a && ' ' !in b
    ensures Split(a + "  " + b, ' ') == [a, "", b]
  {
    var parts := [a, "", b];
    assert Join(parts, ' ') == a + "  " + b by {
      assert Join(parts[2..], ' ') == b;
      assert Join(parts[1..], ' ') == [' '] + b;
    }
    SplitJoin(parts, ' ');
  }

  /** A file with no text gives no arguments. */
  lemma EmptyFileNoArguments(args: Arguments)
    ensures FileArguments(args, "") == args
  {
  }

  /** No entry has an empty key, so the table never gains one. */
  lemma {:induction false} FileNeverStoresEmptyKey(args: Arguments, lines: seq<string>)
    requires "" !in args
    ensures "" !in StoreLines(args, lines)
    decreases |lines|
  {
    if lines != [] {
      FileNeverStoresEmptyKey(Store(args, LineEntry(lines[0])), lines[1..]);
    }
  }

  /** The last line that names a key decides its values: earlier lines are
      overwritten and later lines with other keys leave it alone. */
  lemma {:induction false} FileLastLineWins(args: Arguments, lines: seq<string>, i: nat)
    requires i < |lines| && LineEntry(lines[i]).Some?
    requires forall j :: i < j < |lines| && LineEntry(lines[j]).Some? ==>
      LineEntry(lines[j]).value.key != LineEntry(lines[i]).value.key
    ensures var e := LineEntry(lines[i]).value;
      e.key in StoreLines(args, lines) && StoreLines(args, lines)[e.key] == e.values
    decreases |lines|
  {
    var e := LineEntry(lines[i]).value;
    var next := Store(args, LineEntry(lines[0]));
    if i == 0 {
      KeptByLaterLines(next, lines[1..], e.key);
    } else {
      FileLastLineWins(next, lines[1..], i - 1);
    }
  }

  /** Lines whose keys differ from `key` leave its values untouched. */
  lemma {:induction false} KeptByLaterLines(args: Arguments, lines: seq<string>, key: string)
    requires key in args
    requires forall j :: 0 <= j < |lines| && LineEntry(lines[j]).Some? ==> LineEntry(lines[j]).value.key != key
    ensures key in StoreLines(args, lines) && StoreLines(args, lines)[key] == args[key]
    decreases |lines|
  {
    if lines != [] {
      KeptByLaterLines(Store(args, LineEntry(lines[0])), lines[1..], key);
    }
  }

  // ===========================================================================
  // Direct arguments (parseFromArgs)

  predicate StartsWithDash(a: string)
  {
    |a| > 0 && a[0] == '-'
  }

  /** The end of the run of values that starts at `j`: the first later argument
      that starts with a dash, or the end of argv. (argv[argi][0] of an empty
      string is the terminating NUL, so an empty argument is a value.) */
  function RunEnd(argv: seq<string>, j: nat): (r: nat)
    requires j <= |argv|
    ensures j <= r <= |argv|
    ensures forall k :: j <= k < r ==> !StartsWithDash(argv[k])
    ensures r < |argv| ==> StartsWithDash(argv[r])
    decreases |argv| - j
  {
    if j == |argv| || StartsWithDash(argv[j]) then j else RunEnd(argv, j + 1)
  }

  /** How the loop of parseFromArgs, as written, ends: either it reaches the end
      of argv, or it reaches a key-position argument that trims to nothing, where
      `continue` repeats the same iteration for ever. */
  datatype ArgsOutcome =
    | Finished(args: Arguments)
    | Spins(at: nat, args: Arguments)

  /** The loop of parseFromArgs from position `i`, as written. */
  function ArgsFrom(argv: seq<string>, i: nat, args: Arguments): ArgsOutcome
    decreases |argv| - i
  {
    if i >= |argv| then Finished(args)
    else
      var key := Trim(argv[i], Dash);
      if key == [] then Spins(i, args)
      else
        var j := RunEnd(argv, i + 1);
        ArgsFrom(argv, j, args[key := argv[i + 1..j]])
  }

  /** The loop as evidently intended: a key-position argument that trims to
      nothing consumes its run of values like any other and, as in the file
      parser, nothing is stored for an empty key. */
  function ArgsFromFixed(argv: seq<string>, i: nat, args: Arguments): Arguments
    decreases |argv| - i
  {
    if i >= |argv| then args
    else
      var key := Trim(argv[i], Dash);
      var j := RunEnd(argv, i + 1);
      ArgsFromFixed(argv, j, if key == [] then args else args[key := argv[i + 1..j]])
  }

  /** Collects the run of values that follows a key, as the inner while loop does. */
  method CollectValues(argv: seq<string>, start: nat) returns (values: seq<string>, next: nat)
    requires start <= |argv|
    ensures next == RunEnd(argv, start)
    ensures values == argv[start..next]
  {
    values := [];
    next := start;
    while next < |argv| && !StartsWithDash(argv[next])
      invariant start <= next <= |argv|
      invariant values == argv[start..next]
      invariant RunEnd(argv, next) == RunEnd(argv, start)
      decreases |argv| - next
    {
      values := values + [argv[next]];
      next := next + 1;
    }
  }

  /** Config::parseFromArgs, as written. Where the C++ loop would spin for ever
      on an argument that trims to nothing, the model stops and reports Spins. */
  method ParseFromArgs(argv: seq<string>, arguments: Arguments) returns (outcome: ArgsOutcome)
    ensures outcome == ArgsFrom(argv, 1, arguments)
  {
    var argi := 1;
    var args := arguments;
    while argi < |argv|
      invariant ArgsFrom(argv, 1, arguments) == ArgsFrom(argv, argi, args)
      decreases |argv| - argi
    {
      // Clean the argument from any dash.
      var firstArg := Trim(argv[argi], Dash);
      if firstArg == [] {
        // `continue` without advancing argi: the same iteration repeats for ever.
        return Spins(argi, args);
      }
      var values;
      values, argi := CollectValues(argv, argi + 1);
      args := args[firstArg := values];
    }
    return Finished(args);
  }

  /** parseFromArgs with the defect corrected; this is what Config uses. */
  method ParseFromArgsFixed(argv: seq<string>, arguments: Arguments) returns (result: Arguments)
    ensures result == ArgsFromFixed(argv, 1, arguments)
  {
    var argi := 1;
    result := arguments;
    while argi < |argv|
      invariant ArgsFromFixed(argv, 1, arguments) == ArgsFromFixed(argv, argi, result)
      decreases |argv| - argi
    {
      var firstArg := Trim(argv[argi], Dash);
      var values;
      values, argi := CollectValues(argv, argi + 1);
      if firstArg != [] {
        result := result[firstArg := values];
      }
    }
  }

  // ---- properties of direct arguments -------------------------------------

  /** argv[0], the program name, plays no part. */
  lemma {:induction false} ArgsIgnoreProgramName(argv: seq<string>, other: seq<string>, i: nat, args: Arguments)
    requires |argv| == |other| && 1 <= i
    requires forall k :: 1 <= k < |argv| ==> argv[k] == other[k]
    ensures ArgsFrom(argv, i, args) == ArgsFrom(other, i, args)
    decreases |argv| - i
  {
    if i < |argv| {
      var j := RunEnd(argv, i + 1);
      RunEndAgrees(argv, other, i + 1);
      assert argv[i + 1..j] == other[i + 1..j];
      var key := Trim(argv[i], Dash);
      ArgsIgnoreProgramName(argv, other, j, args[key := argv[i + 1..j]]);
    }
  }

  /** The same for the corrected loop. */
  lemma {:induction false} FixedIgnoresProgramName(argv: seq<string>, other: seq<string>, i: nat, args: Arguments)
    requires |argv| == |other| && 1 <= i
    requires forall k :: 1 <= k < |argv| ==> argv[k] == other[k]
    ensures ArgsFromFixed(argv, i, args) == ArgsFromFixed(other, i, args)
    decreases |argv| - i
  {
    if i < |argv| {
      var j := RunEnd(argv, i + 1);
      RunEndAgrees(argv, other, i + 1);
      assert argv[i + 1..j] == other[i + 1..j];
      var key := Trim(argv[i], Dash);
      FixedIgnoresProgramName(argv, other, j, if key == [] then args else args[key := argv[i + 1..j]]);
    }
  }

  lemma {:induction false} RunEndAgrees(argv: seq<string>, other: seq<string>, j: nat)
    requires |argv| == |other| && 1 <= j <= |argv|
    requires forall k :: 1 <= k < |argv| ==> argv[k] == other[k]
    ensures RunEnd(argv, j) == RunEnd(other, j)
    decreases |argv| - j
  {
    if j < |argv| && !StartsWithDash(argv[j]) {
      RunEndAgrees(argv, other, j + 1);
    }
  }

  /** The positions the loop started at `i` treats as keys: `i` itself and every
      later argument that starts with a dash. */
  predicate KeyPosition(argv: seq<string>, i: nat, k: nat)
  {
    k == i || (i < k < |argv| && StartsWithDash(argv[k]))
  }

  /** A key position after `i` is a key position of the loop resumed at the end
      of `i`'s run of values. */
  lemma KeyPositionAfterRun(argv: seq<string>, i: nat, k: nat)
    requires i < k < |argv| && StartsWithDash(argv[k])
    ensures var j := RunEnd(argv, i + 1); j <= k && KeyPosition(argv, j, k)
  {
  }

  /** The as-written loop spins exactly when some key position holds an argument
      that trims to nothing, and it spins at the first such position. */
  lemma {:induction false} SpinsOnlyOnEmptyKey(argv: seq<string>, i: nat, args: Arguments)
    ensures ArgsFrom(argv, i, args).Spins?
        <==> exists k :: i <= k < |argv| && KeyPosition(argv, i, k) && Trim(argv[k], Dash) == []
    ensures ArgsFrom(argv, i, args).Spins? ==>
      var at := ArgsFrom(argv, i, args).at;
      && i <= at < |argv| && KeyPosition(argv, i, at) && Trim(argv[at], Dash) == []
      && forall k :: i <= k < at && KeyPosition(argv, i, k) ==> Trim(argv[k], Dash) != []
    decreases |argv| - i
  {
    if i < |argv| {
      var key := Trim(argv[i], Dash);
      if key != [] {
        var j := RunEnd(argv, i + 1);
        SpinsOnlyOnEmptyKey(argv, j, args[key := argv[i + 1..j]]);
        // The key positions after `i` are those of the loop resumed at `j`.
        forall k | i < k < |argv| && KeyPosition(argv, i, k)
          ensures j <= k && KeyPosition(argv, j, k)
        {
          KeyPositionAfterRun(argv, i, k);
        }
        forall k | j <= k < |argv| && KeyPosition(argv, j, k)
          ensures KeyPosition(argv, i, k)
        {
          if k == j { assert StartsWithDash(argv[j]); }
        }
      }
    }
  }

  /** A lone "--" where a key is expected makes the as-written loop spin. */
  lemma LoneDashSpins()
    ensures ArgsFrom(["app", "--"], 1, map[]) == Spins(1, map[])
  {
    TrimEmpty("--", Dash);
  }

  /** Where the as-written loop terminates, the corrected one gives the same table. */
  lemma {:induction false} FixedAgreesWhenFinished(argv: seq<string>, i: nat, args: Arguments)
    requires ArgsFrom(argv, i, args).Finished?
    ensures ArgsFromFixed(argv, i, args) == ArgsFrom(argv, i, args).args
    decreases |argv| - i
  {
    if i < |argv| {
      var key := Trim(argv[i], Dash);
      var j := RunEnd(argv, i + 1);
      FixedAgreesWhenFinished(argv, j, args[key := argv[i + 1..j]]);
    }
  }

  /** The corrected loop never stores an empty key. */
  lemma {:induction false} FixedNeverStoresEmptyKey(argv: seq<string>, i: nat, args: Arguments)
    requires "" !in args
    ensures "" !in ArgsFromFixed(argv, i, args)
    decreases |argv| - i
  {
    if i < |argv| {
      var key := Trim(argv[i], Dash);
      var j := RunEnd(argv, i + 1);
      FixedNeverStoresEmptyKey(argv, j, if key == [] then args else args[key := argv[i + 1..j]]);
    }
  }

  /** A key reached by the loop gets the whole run of arguments after it that do
      not start with a dash, unless a later key position names it again. */
  lemma FixedKeyGetsItsRun(argv: seq<string>, i: nat, args: Arguments)
    requires i < |argv| && Trim(argv[i], Dash) != []
    requires forall k :: i < k < |argv| && StartsWithDash(argv[k]) ==> Trim(argv[k], Dash) != Trim(argv[i], Dash)
    ensures var key, j := Trim(argv[i], Dash), RunEnd(argv, i + 1);
      && key in ArgsFromFixed(argv, i, args)
      && ArgsFromFixed(argv, i, args)[key] == argv[i + 1..j]
      && (forall k :: i + 1 <= k < j ==> !StartsWithDash(argv[k]))
      && (j < |argv| ==> StartsWithDash(argv[j]))
  {
    var key := Trim(argv[i], Dash);
    var j := RunEnd(argv, i + 1);
    FixedKeepsKey(argv, j, args[key := argv[i + 1..j]], key);
  }

  /** The loop started at `i` passes through every later key position `k`: what
      it builds equals the loop resumed at `k` from the table built so far. */
  lemma {:induction false} FixedReachesKeyPosition(argv: seq<string>, i: nat, k: nat, args: Arguments)
    requires i < k < |argv| && StartsWithDash(argv[k])
    ensures exists m :: ArgsFromFixed(argv, i, args) == ArgsFromFixed(argv, k, m)
    decreases k - i
  {
    var key := Trim(argv[i], Dash);
    var j := RunEnd(argv, i + 1);
    var next := if key == [] then args else args[key := argv[i + 1..j]];
    KeyPositionAfterRun(argv, i, k);
    assert ArgsFromFixed(argv, i, args) == ArgsFromFixed(argv, j, next);
    if j < k {
      FixedReachesKeyPosition(argv, j, k, next);
    }
  }

  /** In the table Config builds from argv, every key position whose key is not
      named again by a later key position holds the maximal run of arguments
      after it that do not start with a dash. */
  lemma EveryKeyGetsItsRun(argv: seq<string>, k: nat)
    requires 1 <= k < |argv| && KeyPosition(argv, 1, k) && Trim(argv[k], Dash) != []
    requires forall l :: k < l < |argv| && StartsWithDash(argv[l]) ==> Trim(argv[l], Dash) != Trim(argv[k], Dash)
    ensures var key, j, table := Trim(argv[k], Dash), RunEnd(argv, k + 1), ArgsFromFixed(argv, 1, map[]);
      && key in table && table[key] == argv[k + 1..j]
      && (forall l :: k + 1 <= l < j ==> !StartsWithDash(argv[l]))
      && (j < |argv| ==> StartsWithDash(argv[j]))
  {
    if k == 1 {
      FixedKeyGetsItsRun(argv, 1, map[]);
    } else {
      FixedReachesKeyPosition(argv, 1, k, map[]);
      var m :| ArgsFromFixed(argv, 1, map[]) == ArgsFromFixed(argv, k, m);
      FixedKeyGetsItsRun(argv, k, m);
    }
  }

  /** From a key position on, keys that never come up again keep their values. */
  lemma {:induction false} FixedKeepsKey(argv: seq<string>, j: nat, args: Arguments, key: string)
    requires j <= |argv| && key in args
    requires j < |argv| ==> StartsWithDash(argv[j])
    requires forall k :: j <= k < |argv| && StartsWithDash(argv[k]) ==> Trim(argv[k], Dash) != key
    ensures key in ArgsFromFixed(argv, j, args) && ArgsFromFixed(argv, j, args)[key] == args[key]
    decreases |argv| - j
  {
    if j < |argv| {
      var k := Trim(argv[j], Dash);
      var next := RunEnd(argv, j + 1);
      FixedKeepsKey(argv, next, if k == [] then args else args[k := argv[j + 1..next]], key);
    }
  }

  /** Every stored value is an argument that does not start with a dash. */
  predicate NoDashValues(args: Arguments)
  {
    forall k, v :: k in args && v in args[k] ==> !StartsWithDash(v)
  }

  /** The corrected loop stores only values that do not start with a dash. */
  lemma {:induction false} FixedValuesHaveNoDash(argv: seq<string>, i: nat, args: Arguments)
    requires NoDashValues(args)
    ensures NoDashValues(ArgsFromFixed(argv, i, args))
    decreases |argv| - i
  {
    if i < |argv| {
      var key := Trim(argv[i], Dash);
      var j := RunEnd(argv, i + 1);
      var run := argv[i + 1..j];
      var next := if key == [] then args else args[key := run];
      forall k, v | k in next && v in next[k] ensures !StartsWithDash(v) {
        if k == key && key != [] {
          var n :| 0 <= n < |run| && run[n] == v;
          assert run[n] == argv[i + 1 + n];
        }
      }
      FixedValuesHaveNoDash(argv, j, next);
    }
  }

  // ===========================================================================
  // The dispatch of Config::Config and the logging settings

  datatype Mode =
    | NothingToParse          // fewer than two entries
    | MissingConfigPath       // -c / --config without a path
    | ConfigFile(path: string)
    | DirectArguments

  function ModeOf(argv: seq<string>): (m: Mode)
    ensures m == NothingToParse <==> |argv| < 2
    ensures (m.MissingConfigPath? || m.ConfigFile?)
        <==> |argv| >= 2 && Trim(argv[1], Dash) in {"c", "config"}
    ensures m.MissingConfigPath? <==> |argv| == 2 && Trim(argv[1], Dash) in {"c", "config"}
    ensures m.ConfigFile? ==> |argv| >= 3 && m.path == argv[2]
  {
    if |argv| < 2 then NothingToParse
    else
      var potentialConfig := Trim(argv[1], Dash);
      if potentialConfig == "c" || potentialConfig == "config" then
        if |argv| < 3 then MissingConfigPath else ConfigFile(argv[2])
      else DirectArguments
  }

  /** Resources::loadStringFromExternalFile: the text of the file, or nothing
      when there is no such file. */
  function Load(files: map<string, string>, path: string): string
  {
    if path in files then files[path] else ""
  }

  /** The raw table Config::Config builds (with the corrected argument loop). */
  function RawArguments(argv: seq<string>, files: map<string, string>): Arguments
  {
    match ModeOf(argv)
    case NothingToParse => map[]
    case MissingConfigPath => map[]
    case ConfigFile(path) => FileArguments(map[], Load(files, path))
    case DirectArguments => ArgsFromFixed(argv, 1, map[])
  }

  /** With fewer than two entries, or a config flag without its path, nothing is
      recorded; otherwise argv[2] names the configuration file. */
  lemma DispatchCases(argv: seq<string>, files: map<string, string>)
    ensures |argv| < 2 ==> RawArguments(argv, files) == map[]
    ensures |argv| >= 2 && Trim(argv[1], Dash) in {"c", "config"} ==>
      RawArguments(argv, files) == if |argv| < 3 then map[] else FileArguments(map[], Load(files, argv[2]))
    ensures |argv| >= 2 && Trim(argv[1], Dash) !in {"c", "config"} ==>
      RawArguments(argv, files) == ArgsFromFixed(argv, 1, map[])
  {
  }

  /** Logging settings picked from the table: `log-path` takes its first value
      (a missing first value is an error) and `verbose` switches verbosity on. */
  datatype Logging = Logging(path: string, verbose: bool)

  function LoggingOf(raw: Arguments): Result<Logging, ArgumentError>
  {
    if "log-path" in raw && raw["log-path"] == [] then Err(MissingValue("log-path", 0))
    else Ok(Logging(if "log-path" in raw then raw["log-path"][0] else "", "verbose" in raw))
  }

  class Config {
    /** _rawArguments */
    var rawArguments: Arguments
    /** The path passed to Log::setDefaultFile, if it was called. */
    var logFile: Option<string>
    /** The flag passed to Log::setDefaultVerbose, if it was called. */
    var logVerbose: Option<bool>
    /** Set where the C++ reads the value of a `log-path` that has none. */
    var error: Option<ArgumentError>

    /** Config::Config on the argument vector; `files` stands for the file system. */
    constructor (argv: seq<string>, files: map<string, string>)
      ensures rawArguments == RawArguments(argv, files)
      ensures ModeOf(argv) in {NothingToParse, MissingConfigPath} ==>
        logFile == None && logVerbose == None && error == None
      ensures ModeOf(argv) !in {NothingToParse, MissingConfigPath} ==>
        match LoggingOf(rawArguments)
        case Err(e) => error == Some(e) && logFile == None && logVerbose == None
        case Ok(l) =>
          && error == None
          && logFile == (if l.path != "" then Some(l.path) else None)
          && logVerbose == Some(l.verbose)
    {
      rawArguments := map[];
      logFile := None;
      logVerbose := None;
      error := None;
      new;
      var mode := ModeOf(argv);
      if mode == NothingToParse || mode == MissingConfigPath {
        // Keep using default values.
        return;
      }
      if mode.ConfigFile? {
        rawArguments := ParseFromFile(Load(files, mode.path), rawArguments);
      } else {
        rawArguments := ParseFromArgsFixed(argv, rawArguments);
      }
      var logging := ExtractLogging(rawArguments, SortedKeys(rawArguments.Keys));
      if logging.Err? {
        error := Some(logging.error);
        return;
      }
      if logging.value.path != "" {
        logFile := Some(logging.value.path);
      }
      logVerbose := Some(logging.value.verbose);
    }
  }

  /** The loop of Config::Config over the keys of the table (in std::map order)
      that picks out the logging settings. */
  method ExtractLogging(raw: Arguments, keys: seq<string>) returns (r: Result<Logging, ArgumentError>)
    requires forall k :: k in keys <==> k in raw
    ensures r == LoggingOf(raw)
  {
    var logPath := "";
    var verbose := false;
    var i := 0;
    while i < |keys|
      invariant 0 <= i <= |keys|
      invariant verbose <==> exists j :: 0 <= j < i && keys[j] == "verbose"
      invariant (exists j :: 0 <= j < i && keys[j] == "log-path") ==> raw["log-path"] != [] && logPath == raw["log-path"][0]
      invariant (forall j :: 0 <= j < i ==> keys[j] != "log-path") ==> logPath == ""
    {
      var key := keys[i];
      if key == "verbose" {
        verbose := true;
      } else if key == "log-path" {
        if raw[key] == [] {
          return Err(MissingValue(key, 0));
        }
        logPath := raw[key][0];
      }
      i := i + 1;
    }
    return Ok(Logging(logPath, verbose));
  }

  // ===========================================================================
  // Rendering settings (RenderingConfig::processArguments)

  /** The fields of RenderingConfig that processArguments assigns. */
  datatype RenderSettings = RenderSettings(
    vsync: bool,
    rate: int,
    fullscreen: bool,
    internalVerticalResolution: int,
    initialWidth: nat,
    initialHeight: nat,
    forceAspectRatio: bool)

  /** Which branch of processArguments' if-chain a key takes. */
  datatype Handling =
    | VsyncOff | HalfRate | Fullscreen | Resolution | WindowSize | ForceAspect | Ignored

  function HandlingOf(key: string): (h: Handling)
    ensures h == VsyncOff <==> key == "novsync" || key == "no-vsync"
    ensures h == HalfRate <==> key == "half-rate"
    ensures h == Fullscreen <==> key == "fullscreen"
    ensures h == Resolution <==> key == "internal-res" || key == "ivr"
    ensures h == WindowSize <==> key == "wxh"
    ensures h == ForceAspect <==> key == "force-aspect-ratio" || key == "far"
  {
    if key == "novsync" || key == "no-vsync" then VsyncOff
    else if key == "half-rate" then HalfRate
    else if key == "fullscreen" then Fullscreen
    else if key == "internal-res" || key == "ivr" then Resolution
    else if key == "wxh" then WindowSize
    else if key == "force-aspect-ratio" || key == "far" then ForceAspect
    else Ignored
  }

  /** What handling one key leaves behind. */
  datatype Applied = Applied(settings: RenderSettings, error: Option<ArgumentError>)

  /** std::stoi(values[index]): the value must exist and be a number. */
  function ReadInt(key: string, values: seq<string>, index: nat): (r: Result<int, ArgumentError>)
    ensures r.Ok? <==> index < |values| && Stoi(values[index]).Some?
    ensures r.Ok? ==> 0 <= r.value <= IntMax && r.value == Stoi(values[index]).value
    ensures r.Err? && index >= |values| ==> r.error == MissingValue(key, index)
    ensures r.Err? && index < |values| ==> r.error == NotANumber(key, values[index])
  {
    if index >= |values| then Err(MissingValue(key, index))
    else match Stoi(values[index])
      case None => Err(NotANumber(key, values[index]))
      case Some(n) => Ok(n)
  }

  /** The body of the loop of processArguments for one key. */
  function ApplyKey(s: RenderSettings, key: string, values: seq<string>): Applied
  {
    match HandlingOf(key)
    case VsyncOff => Applied(s.(vsync := false), None)
    case HalfRate => Applied(s.(rate := 30), None)
    case Fullscreen => Applied(s.(fullscreen := true), None)
    case Resolution =>
      (match ReadInt(key, values, 0)
       case Err(e) => Applied(s, Some(e))
       case Ok(n) => Applied(s.(internalVerticalResolution := n), None))
    case WindowSize =>
      (match ReadInt(key, values, 0)
       case Err(e) => Applied(s, Some(e))
       case Ok(w) =>
         match ReadInt(key, values, 1)
         case Err(e) => Applied(s, Some(e))
         case Ok(h) => Applied(s.(initialWidth := w, initialHeight := h), None))
    case ForceAspect => Applied(s.(forceAspectRatio := true), None)
    case Ignored => Applied(s, None)
  }

  /** The loop over `keys` in order; it stops at the first error. */
  function ApplyKeys(s: RenderSettings, raw: Arguments, keys: seq<string>): Applied
    requires forall k :: k in keys ==> k in raw
  {
    if keys == [] then Applied(s, None)
    else
      var p := ApplyKeys(s, raw, keys[..|keys| - 1]);
      if p.error.Some? then p
      else ApplyKey(p.settings, keys[|keys| - 1], raw[keys[|keys| - 1]])
  }

  /** processArguments: the table's keys visited in std::map order. */
  function Processed(s: RenderSettings, raw: Arguments): Applied
  {
    ApplyKeys(s, raw, SortedKeys(raw.Keys))
  }

  /** Whether a key's values are usable by processArguments. */
  predicate Accepted(key: string, values: seq<string>)
  {
    && (HandlingOf(key) == Resolution ==> |values| >= 1 && Stoi(values[0]).Some?)
    && (HandlingOf(key) == WindowSize ==> |values| >= 2 && Stoi(values[0]).Some? && Stoi(values[1]).Some?)
  }

  /** The last of `keys` that takes branch `h`. */
  function LastWith(keys: seq<string>, h: Handling): (r: Option<string>)
    ensures r.Some? ==> HandlingOf(r.value) == h && r.value in keys
  {
    if keys == [] then None
    else if HandlingOf(keys[|keys| - 1]) == h then Some(keys[|keys| - 1])
    else LastWith(keys[..|keys| - 1], h)
  }

  /** A key outside the known ones changes nothing. */
  lemma UnknownKeyIgnored(s: RenderSettings, key: string, values: seq<string>)
    requires key !in {"novsync", "no-vsync", "half-rate", "fullscreen", "internal-res", "ivr",
                      "wxh", "force-aspect-ratio", "far"}
    ensures ApplyKey(s, key, values) == Applied(s, None)
  {
  }

  /** Handling a key fails exactly when its values are unusable, and then changes nothing. */
  lemma ApplyKeyError(s: RenderSettings, key: string, values: seq<string>)
    ensures ApplyKey(s, key, values).error.None? <==> Accepted(key, values)
    ensures ApplyKey(s, key, values).error.Some? ==> ApplyKey(s, key, values).settings == s
  {
  }

  /** Every key of `keys` is in the table with usable values. */
  predicate AllAccepted(raw: Arguments, keys: seq<string>)
  {
    forall k :: k in keys ==> k in raw && Accepted(k, raw[k])
  }

  /** The settings the keys decide, independently of how the loop runs: a boolean
      flag is set by any of its spellings, half-rate gives 30, and the internal
      resolution and the window size come from the last key of their kind. */
  function ExpectedSettings(s: RenderSettings, raw: Arguments, keys: seq<string>): RenderSettings
    requires AllAccepted(raw, keys)
  {
    RenderSettings(
      vsync := s.vsync && LastWith(keys, VsyncOff).None?,
      rate := if LastWith(keys, HalfRate).Some? then 30 else s.rate,
      fullscreen := s.fullscreen || LastWith(keys, Fullscreen).Some?,
      internalVerticalResolution :=
        match LastWith(keys, Resolution)
        case None => s.internalVerticalResolution
        case Some(k) => Stoi(raw[k][0]).value,
      initialWidth :=
        match LastWith(keys, WindowSize)
        case None => s.initialWidth
        case Some(k) => Stoi(raw[k][0]).value,
      initialHeight :=
        match LastWith(keys, WindowSize)
        case None => s.initialHeight
        case Some(k) => Stoi(raw[k][1]).value,
      forceAspectRatio := s.forceAspectRatio || LastWith(keys, ForceAspect).Some?)
  }

  /** The loop over the keys succeeds exactly when every key's values are usable. */
  lemma {:induction false} ApplyKeysSucceeds(s: RenderSettings, raw: Arguments, keys: seq<string>)
    requires forall k :: k in keys ==> k in raw
    ensures ApplyKeys(s, raw, keys).error.None? <==> AllAccepted(raw, keys)
    decreases |keys|
  {
    if keys != [] {
      var init, last := keys[..|keys| - 1], keys[|keys| - 1];
      assert keys == init + [last];
      assert forall k :: k in keys <==> k in init || k == last;
      ApplyKeysSucceeds(s, raw, init);
      ApplyKeyError(ApplyKeys(s, raw, init).settings, last, raw[last]);
    }
  }

  /** When it succeeds, the loop leaves exactly the settings the keys decide. */
  lemma {:induction false} ApplyKeysClosedForm(s: RenderSettings, raw: Arguments, keys: seq<string>)
    requires AllAccepted(raw, keys)
    ensures ApplyKeys(s, raw, keys) == Applied(ExpectedSettings(s, raw, keys), None)
    decreases |keys|
  {
    if keys != [] {
      var init, last := keys[..|keys| - 1], keys[|keys| - 1];
      assert keys == init + [last];
      assert forall k :: k in init ==> k in keys;
      ApplyKeysClosedForm(s, raw, init);
      ExpectedStep(s, raw, init, last);
    }
  }

  /** Handling one more key moves the expected settings from `init` to `init + [last]`. */
  lemma ExpectedStep(s: RenderSettings, raw: Arguments, init: seq<string>, last: string)
    requires AllAccepted(raw, init) && last in raw && Accepted(last, raw[last])
    requires AllAccepted(raw, init + [last])
    ensures ApplyKey(ExpectedSettings(s, raw, init), last, raw[last])
      == Applied(ExpectedSettings(s, raw, init + [last]), None)
  {
    var keys := init + [last];
    assert keys[..|keys| - 1] == init;
    forall h ensures LastWith(keys, h) == if HandlingOf(last) == h then Some(last) else LastWith(init, h) {
    }
  }

  /** A branch is taken by some key exactly when LastWith finds one. */
  lemma {:induction false} LastWithFinds(keys: seq<string>, h: Handling)
    ensures LastWith(keys, h).Some? <==> exists k :: k in keys && HandlingOf(k) == h
    decreases |keys|
  {
    if keys != [] {
      var init := keys[..|keys| - 1];
      assert keys == init + [keys[|keys| - 1]];
      LastWithFinds(init, h);
    }
  }

  /** The index of the key LastWith reports: no key of the same branch follows it. */
  function LastWithIndex(keys: seq<string>, h: Handling): (i: nat)
    requires LastWith(keys, h).Some?
    ensures i < |keys| && keys[i] == LastWith(keys, h).value
    ensures forall j :: i < j < |keys| ==> HandlingOf(keys[j]) != h
  {
    if HandlingOf(keys[|keys| - 1]) == h then |keys| - 1
    else LastWithIndex(keys[..|keys| - 1], h)
  }

  /** std::map visits "internal-res" before "ivr", so when both are given the
      value of "ivr" is the one that stays. */
  lemma IvrWins(s: RenderSettings, raw: Arguments)
    requires "internal-res" in raw && "ivr" in raw
    requires Processed(s, raw).error.None?
    ensures |raw["ivr"]| >= 1 && Stoi(raw["ivr"][0]).Some?
    ensures Processed(s, raw).settings.internalVerticalResolution == Stoi(raw["ivr"][0]).value
  {
    var keys := SortedKeys(raw.Keys);
    SortedKeysSorted(raw.Keys);
    ApplyKeysSucceeds(s, raw, keys);
    ApplyKeysClosedForm(s, raw, keys);
    LastResolutionKey(keys);
    assert Accepted("ivr", raw["ivr"]);
  }

  /** In a strictly sorted key list holding both spellings, "ivr" is the last
      resolution key. */
  lemma LastResolutionKey(keys: seq<string>)
    requires StrictlySorted(keys) && "internal-res" in keys && "ivr" in keys
    ensures LastWith(keys, Resolution) == Some("ivr")
  {
    assert LexLess("internal-res", "ivr");
    SortedBefore(keys, "internal-res", "ivr");
    var i := LastWithIndex(keys, Resolution);
    var j :| 0 <= j < |keys| && keys[j] == "ivr";
    // No resolution key follows index i, "ivr" is a resolution key, and
    // "internal-res" comes before "ivr": keys[i] is "ivr".
    assert !(i < j);
  }

  class RenderingConfig {
    /** The Config this RenderingConfig extends. */
    const config: Config

    var vsync: bool
    var rate: int
    var fullscreen: bool
    var internalVerticalResolution: int
    var initialWidth: nat
    var initialHeight: nat
    var forceAspectRatio: bool
    /** Set where the C++ reads a missing value or std::stoi throws. */
    var error: Option<ArgumentError>

    function Settings(): RenderSettings
      reads this
    {
      RenderSettings(vsync, rate, fullscreen, internalVerticalResolution,
        initialWidth, initialHeight, forceAspectRatio)
    }

    /** RenderingConfig::RenderingConfig: parse through Config, then process the
        table. The member defaults are declared in Config.hpp, which is not part
        of this model; they are passed in. */
    constructor (argv: seq<string>, files: map<string, string>, defaults: RenderSettings)
      ensures config.rawArguments == RawArguments(argv, files)
      ensures Applied(Settings(), error) == Processed(defaults, config.rawArguments)
    {
      config := new Config(argv, files);
      vsync := defaults.vsync;
      rate := defaults.rate;
      fullscreen := defaults.fullscreen;
      internalVerticalResolution := defaults.internalVerticalResolution;
      initialWidth := defaults.initialWidth;
      initialHeight := defaults.initialHeight;
      forceAspectRatio := defaults.forceAspectRatio;
      error := None;
      new;
      ProcessArguments();
    }

    /** RenderingConfig::processArguments. */
    method ProcessArguments()
      requires error == None
      modifies this
      ensures Applied(Settings(), error) == Processed(old(Settings()), config.rawArguments)
    {
      var raw := config.rawArguments;
      ApplyAll(raw, SortedKeys(raw.Keys));
    }

    /** The loop of processArguments over `keys`, stopping at the first error. */
    method ApplyAll(raw: Arguments, keys: seq<string>)
      requires error == None
      requires forall k :: k in keys ==> k in raw
      modifies this
      ensures Applied(Settings(), error) == ApplyKeys(old(Settings()), raw, keys)
    {
      ghost var start := Settings();
      var i := 0;
      while i < |keys| && error == None
        invariant 0 <= i <= |keys|
        invariant ApplyKeysPrefix(start, raw, keys, i) == Applied(Settings(), error)
      {
        ApplyKeysNext(start, raw, keys, i);
        error := ApplyOne(keys[i], raw[keys[i]]);
        i := i + 1;
      }
      if error.Some? {
        PrefixError(start, raw, keys, i);
      } else {
        assert keys[..i] == keys;
      }
    }

    /** One iteration of the loop of processArguments. */
    method ApplyOne(key: string, values: seq<string>) returns (failure: Option<ArgumentError>)
      modifies this
      ensures Applied(Settings(), failure) == ApplyKey(old(Settings()), key, values)
      ensures error == old(error)
    {
      failure := None;
      if key == "novsync" || key == "no-vsync" {
        vsync := false;
      } else if key == "half-rate" {
        rate := 30;
      } else if key == "fullscreen" {
        fullscreen := true;
      } else if key == "internal-res" || key == "ivr" {
        var n := ReadInt(key, values, 0);
        if n.Err? {
          return Some(n.error);
        }
        internalVerticalResolution := n.value;
      } else if key == "wxh" {
        var w := ReadInt(key, values, 0);
        if w.Err? {
          return Some(w.error);
        }
        var h := ReadInt(key, values, 1);
        if h.Err? {
          return Some(h.error);
        }
        initialWidth := w.value;
        initialHeight := h.value;
      } else if key == "force-aspect-ratio" || key == "far" {
        forceAspectRatio := true;
      }
    }
  }

  /** The loop over the first `n` of `keys`. */
  function ApplyKeysPrefix(s: RenderSettings, raw: Arguments, keys: seq<string>, n: nat): Applied
    requires n <= |keys|
    requires forall k :: k in keys ==> k in raw
  {
    assert forall k :: k in keys[..n] ==> k in keys;
    ApplyKeys(s, raw, keys[..n])
  }

  /** One more iteration of the loop over `keys`. */
  lemma ApplyKeysNext(s: RenderSettings, raw: Arguments, keys: seq<string>, n: nat)
    requires n < |keys|
    requires forall k :: k in keys ==> k in raw
    ensures var p := ApplyKeysPrefix(s, raw, keys, n);
      ApplyKeysPrefix(s, raw, keys, n + 1)
        == if p.error.Some? then p else ApplyKey(p.settings, keys[n], raw[keys[n]])
  {
    var k1 := keys[..n + 1];
    assert k1[..|k1| - 1] == keys[..n];
  }

  /** Once the loop has stopped on an error, later keys are not looked at. */
  lemma {:induction false} PrefixError(s: RenderSettings, raw: Arguments, keys: seq<string>, n: nat)
    requires n <= |keys|
    requires forall k :: k in keys ==> k in raw
    requires ApplyKeysPrefix(s, raw, keys, n).error.Some?
    ensures ApplyKeys(s, raw, keys) == ApplyKeysPrefix(s, raw, keys, n)
    decreases |keys| - n
  {
    if n < |keys| {
      ApplyKeysNext(s, raw, keys, n);
      PrefixError(s, raw, keys, n + 1);
    } else {
      assert keys[..n] == keys;
    }
  }
}
