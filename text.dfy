/**
 * String helpers the core relies on: trimming a set of characters from both
 * ends, locating and splitting on a separator, joining, the byte-wise order
 * `std::map<std::string, …>` iterates in, integer printing (`std::to_string`)
 * and integer parsing (`std::stoi`, restricted to plain decimal digits).
 */
module Text {
  import opened Wrappers

  // ---------------------------------------------------------------------------
  // Trimming: TextUtilities::trim(s, chars) removes every leading and trailing
  // character that belongs to `chars`.

  /** The first position at or after `i` whose character is not in `chars`. */
  function SkipLeft(s: string, chars: set<char>, i: nat): (b: nat)
    requires i <= |s|
    ensures i <= b <= |s|
    ensures forall k :: i <= k < b ==> s[k] in chars
    ensures b == |s| || s[b] !in chars
    decreases |s| - i
  {
    if i < |s| && s[i] in chars then SkipLeft(s, chars, i + 1) else i
  }

  /** The end of `s[lo..j]` once the characters of `chars` at its end are dropped. */
  function SkipRight(s: string, chars: set<char>, lo: nat, j: nat): (e: nat)
    requires lo <= j <= |s|
    ensures lo <= e <= j
    ensures forall k :: e <= k < j ==> s[k] in chars
    ensures e == lo || s[e - 1] !in chars
    decreases j
  {
    if j > lo && s[j - 1] in chars then SkipRight(s, chars, lo, j - 1) else j
  }

  /** `s` with the characters of `chars` stripped from both ends. */
  function Trim(s: string, chars: set<char>): string
  {
    var b := SkipLeft(s, chars, 0);
    s[b..SkipRight(s, chars, b, |s|)]
  }

  /** Trim returns the middle `s[b..e]` of `s`: everything cut off on either side
      is in `chars`, and what remains neither starts nor ends with a character of
      `chars`. */
  lemma TrimShape(s: string, chars: set<char>)
    ensures var b := SkipLeft(s, chars, 0); var e := SkipRight(s, chars, b, |s|);
      Trim(s, chars) == s[b..e]
        && (forall i :: 0 <= i < b ==> s[i] in chars)
        && (forall i :: e <= i < |s| ==> s[i] in chars)
    ensures var r := Trim(s, chars); r == [] || (r[0] !in chars && r[|r| - 1] !in chars)
  {
  }

  /** Trim removes nothing more when applied again. */
  lemma TrimIdempotent(s: string, chars: set<char>)
    ensures Trim(Trim(s, chars), chars) == Trim(s, chars)
  {
    var r := Trim(s, chars);
    TrimShape(s, chars);
    assert SkipLeft(r, chars, 0) == 0;
    assert SkipRight(r, chars, 0, |r|) == |r|;
    assert r[0..|r|] == r;
  }

  /** Trim leaves nothing exactly when every character of `s` is in `chars`. */
  lemma TrimEmpty(s: string, chars: set<char>)
    ensures Trim(s, chars) == [] <==> forall i :: 0 <= i < |s| ==> s[i] in chars
  {
    var b := SkipLeft(s, chars, 0);
    var e := SkipRight(s, chars, b, |s|);
    assert Trim(s, chars) == s[b..e];
    if forall i :: 0 <= i < |s| ==> s[i] in chars {
      assert b == |s|;
    }
  }

  // ---------------------------------------------------------------------------
  // Searching, counting, splitting and joining on a single character.

  /** std::string::find_first_of(c, from): the first position at or after `from`
      that holds `c`, or None for npos. */
  function FindFrom(s: string, c: char, from: nat): (r: Option<nat>)
    ensures r.Some? ==> from <= r.value < |s| && s[r.value] == c
    ensures r.Some? ==> forall i :: from <= i < r.value ==> s[i] != c
    ensures r.None? ==> forall i :: from <= i < |s| ==> s[i] != c
    decreases |s| - from
  {
    if from >= |s| then None
    else if s[from] == c then Some(from)
    else FindFrom(s, c, from + 1)
  }

  /** Number of occurrences of `c` in `s`. */
  function Count<T(==)>(s: seq<T>, c: T): nat
  {
    if s == [] then 0 else Count(s[..|s| - 1], c) + (if s[|s| - 1] == c then 1 else 0)
  }

  lemma {:induction false} CountAppend<T>(a: seq<T>, b: seq<T>, c: T)
    ensures Count(a + b, c) == Count(a, c) + Count(b, c)
    decreases |b|
  {
    if b == [] {
      assert a + b == a;
    } else {
      assert (a + b)[..|a + b| - 1] == a + b[..|b| - 1];
      CountAppend(a, b[..|b| - 1], c);
    }
  }

  lemma {:induction false} CountNone<T>(s: seq<T>, c: T)
    requires forall i :: 0 <= i < |s| ==> s[i] != c
    ensures Count(s, c) == 0
    decreases |s|
  {
    if s != [] {
      CountNone(s[..|s| - 1], c);
    }
  }

  /** The pieces of `s` between occurrences of `sep`; consecutive separators give
      empty pieces and there is always one piece more than there are separators. */
  function Split(s: string, sep: char): (r: seq<string>)
    ensures |r| == Count(s, sep) + 1
    ensures forall i :: 0 <= i < |r| ==> sep !in r[i]
    decreases |s|
  {
    match FindFrom(s, sep, 0)
    case None =>
      CountNone(s, sep);
      [s]
    case Some(i) =>
      var rest := Split(s[i + 1..], sep);
      CountNone(s[..i], sep);
      CountAppend(s[..i], [sep], sep);
      CountAppend(s[..i] + [sep], s[i + 1..], sep);
      assert s == s[..i] + [sep] + s[i + 1..];
      [s[..i]] + rest
  }

  lemma {:induction false} FindFromAt(s: string, c: char, from: nat, k: nat)
    requires from <= k < |s| && s[k] == c
    requires forall i :: from <= i < k ==> s[i] != c
    ensures FindFrom(s, c, from) == Some(k)
    decreases k - from
  {
    if from < k {
      FindFromAt(s, c, from + 1, k);
    }
  }

  lemma {:induction false} FindFromNone(s: string, c: char, from: nat)
    requires forall i :: from <= i < |s| ==> s[i] != c
    ensures FindFrom(s, c, from).None?
    decreases |s| - from
  {
    if from < |s| {
      FindFromNone(s, c, from + 1);
    }
  }

  /** Searching a suffix is searching the whole string from the suffix's start. */
  lemma {:induction false} FindFromSuffix(s: string, c: char, b: nat, j: nat)
    requires b <= |s|
    ensures FindFrom(s, c, b + j).None? ==> FindFrom(s[b..], c, j).None?
    ensures FindFrom(s, c, b + j).Some? ==> FindFrom(s[b..], c, j) == Some(FindFrom(s, c, b + j).value - b)
    decreases |s| - b - j
  {
    if b + j < |s| {
      assert s[b..][j] == s[b + j];
      FindFromSuffix(s, c, b, j + 1);
    }
  }

  /** One step of splitting a suffix of `s`, as the search for the next separator finds it. */
  /** The last piece of a suffix that holds no separator. */
  lemma SplitSuffixLast(s: string, sep: char, b: nat)
    requires b <= |s|
    requires FindFrom(s, sep, b).None?
    ensures Split(s[b..], sep) == [s[b..]]
  {
    FindFromSuffix(s, sep, b, 0);
  }

  /** One step of splitting a suffix, at the separator the search finds. */
  lemma SplitSuffixNext(s: string, sep: char, b: nat, e: nat)
    requires b <= |s|
    requires FindFrom(s, sep, b) == Some(e)
    ensures Split(s[b..], sep) == [s[b..e]] + Split(s[e + 1..], sep)
  {
    var t := s[b..];
    assert FindFrom(t, sep, 0) == Some(e - b) by {
      FindFromSuffix(s, sep, b, 0);
    }
    SplitUnfold(t, sep, e - b);
    assert t[..e - b] == s[b..e];
    assert t[e - b + 1..] == s[e + 1..];
  }

  lemma SplitUnfold(t: string, sep: char, i: nat)
    requires FindFrom(t, sep, 0) == Some(i)
    ensures Split(t, sep) == [t[..i]] + Split(t[i + 1..], sep)
  {
  }

  /** The pieces glued back together with `sep` between neighbours. */
  function Join(parts: seq<string>, sep: char): string
  {
    if |parts| == 0 then []
    else if |parts| == 1 then parts[0]
    else parts[0] + [sep] + Join(parts[1..], sep)
  }

  /** Splitting and joining again gives back the original string. */
  lemma {:induction false} JoinSplit(s: string, sep: char)
    ensures Join(Split(s, sep), sep) == s
    decreases |s|
  {
    match FindFrom(s, sep, 0)
    case None =>
    case Some(i) =>
      JoinSplit(s[i + 1..], sep);
      var rest := Split(s[i + 1..], sep);
      assert Split(s, sep) == [s[..i]] + rest;
      assert ([s[..i]] + rest)[1..] == rest;
      assert s == s[..i] + [sep] + s[i + 1..];
  }

  /** Joining pieces that contain no separator and splitting again gives back the pieces. */
  lemma {:induction false} SplitJoin(parts: seq<string>, sep: char)
    requires |parts| >= 1
    requires forall i :: 0 <= i < |parts| ==> sep !in parts[i]
    ensures Split(Join(parts, sep), sep) == parts
    decreases |parts|
  {
    var p := parts[0];
    assert sep !in p;
    if |parts| == 1 {
      assert FindFrom(p, sep, 0).None?;
    } else {
      var tail := Join(parts[1..], sep);
      var s := Join(parts, sep);
      assert s == p + [sep] + tail;
      forall i | 0 <= i < |p| ensures s[i] != sep {
        assert s[i] == p[i];
      }
      FindFromAt(s, sep, 0, |p|);
      SplitUnfold(s, sep, |p|);
      assert s[..|p|] == p;
      assert s[|p| + 1..] == tail;
      SplitJoin(parts[1..], sep);
      assert parts == [p] + parts[1..];
    }
  }

  // ---------------------------------------------------------------------------
  // The order of std::string comparison: lexicographic on characters, a proper
  // prefix first. std::map iterates its keys in this order.

  predicate LexLess(a: string, b: string)
    decreases |a|
  {
    if a == [] then b != []
    else if b == [] then false
    else if a[0] != b[0] then a[0] < b[0]
    else LexLess(a[1..], b[1..])
  }

  lemma {:induction false} LexIrreflexive(a: string)
    ensures !LexLess(a, a)
    decreases |a|
  {
    if a != [] {
      LexIrreflexive(a[1..]);
    }
  }

  lemma {:induction false} LexAsymmetric(a: string, b: string)
    ensures !(LexLess(a, b) && LexLess(b, a))
    decreases |a|
  {
    if a != [] && b != [] && a[0] == b[0] {
      LexAsymmetric(a[1..], b[1..]);
    }
  }

  lemma {:induction false} LexTransitive(a: string, b: string, c: string)
    requires LexLess(a, b) && LexLess(b, c)
    ensures LexLess(a, c)
    decreases |a|
  {
    if a != [] && a[0] == b[0] && b[0] == c[0] {
      LexTransitive(a[1..], b[1..], c[1..]);
    }
  }

  lemma {:induction false} LexTotal(a: string, b: string)
    requires a != b
    ensures LexLess(a, b) || LexLess(b, a)
    decreases |a|
  {
    if a != [] && b != [] && a[0] == b[0] {
      assert a == [a[0]] + a[1..] && b == [b[0]] + b[1..];
      LexTotal(a[1..], b[1..]);
    }
  }

  predicate IsLeast(m: string, s: set<string>)
  {
    m in s && forall k :: k in s && k != m ==> LexLess(m, k)
  }

  /** Every non-empty finite set of strings has exactly one least element. */
  lemma {:induction false} LeastExists(s: set<string>)
    requires s != {}
    ensures exists m :: IsLeast(m, s)
    ensures forall a, b :: IsLeast(a, s) && IsLeast(b, s) ==> a == b
    decreases |s|
  {
    var x :| x in s;
    if s == {x} {
      assert IsLeast(x, s);
    } else {
      LeastExists(s - {x});
      var m :| IsLeast(m, s - {x});
      if LexLess(x, m) {
        forall k | k in s && k != x ensures LexLess(x, k) {
          if k != m { LexTransitive(x, m, k); }
        }
        assert IsLeast(x, s);
      } else {
        LexTotal(x, m);
        assert IsLeast(m, s);
      }
    }
    forall a, b | IsLeast(a, s) && IsLeast(b, s) ensures a == b {
      if a != b { LexAsymmetric(a, b); }
    }
  }

  predicate StrictlySorted(r: seq<string>)
  {
    forall i, j :: 0 <= i < j < |r| ==> LexLess(r[i], r[j])
  }

  /** The keys of a std::map in its iteration order: the least key first, then
      the others in the same order. SortedKeysSorted shows the result is strictly
      increasing. */
  function SortedKeys(s: set<string>): (r: seq<string>)
    ensures |r| == |s|
    ensures forall k :: k in s <==> k in r
    decreases |s|
  {
    if s == {} then []
    else
      LeastExists(s);
      var m :| IsLeast(m, s);
      [m] + SortedKeys(s - {m})
  }

  /** Every key once, in increasing order. */
  lemma {:induction false} SortedKeysSorted(s: set<string>)
    ensures StrictlySorted(SortedKeys(s))
    decreases |s|
  {
    if s != {} {
      LeastExists(s);
      var m :| IsLeast(m, s);
      var rest := SortedKeys(s - {m});
      assert SortedKeys(s) == [m] + rest;
      SortedKeysSorted(s - {m});
      forall j | 0 <= j < |rest| ensures LexLess(m, rest[j]) {
        assert rest[j] in s - {m};
      }
    }
  }

  /** Position of a key among the sorted keys. */
  lemma SortedBefore(r: seq<string>, a: string, b: string)
    requires StrictlySorted(r) && LexLess(a, b)
    requires a in r && b in r
    ensures exists i, j :: 0 <= i < j < |r| && r[i] == a && r[j] == b
    ensures forall i, j :: 0 <= i < |r| && 0 <= j < |r| && r[i] == a && r[j] == b ==> i < j
  {
    forall i, j | 0 <= i < |r| && 0 <= j < |r| && r[i] == a && r[j] == b ensures i < j {
      if i == j { LexIrreflexive(a); }
      if j < i { LexAsymmetric(a, b); }
    }
    var i :| 0 <= i < |r| && r[i] == a;
    var j :| 0 <= j < |r| && r[j] == b;
    if j <= i {
      if i == j { LexIrreflexive(a); } else { LexAsymmetric(a, b); }
    }
  }

  // ---------------------------------------------------------------------------
  // Decimal digits: std::to_string on unsigned values and std::stoi restricted
  // to non-empty strings of digits.

  const IntMax: int := 0x7fff_ffff

  predicate IsDigit(c: char) { '0' <= c <= '9' }

  predicate IsDigits(s: string) { forall i :: 0 <= i < |s| ==> IsDigit(s[i]) }

  function DigitChar(d: nat): (c: char)
    requires d < 10
    ensures IsDigit(c) && c as int - '0' as int == d
  {
    ('0' as int + d) as char
  }

  /** std::to_string of a non-negative integer. */
  function NatToString(n: nat): (r: string)
    ensures |r| >= 1 && IsDigits(r)
    decreases n
  {
    if n < 10 then [DigitChar(n)] else NatToString(n / 10) + [DigitChar(n % 10)]
  }

  /** The value of a string of decimal digits, most significant first, or None
      when some character is not a digit. */
  function Digits(s: string): (r: Option<nat>)
    ensures r.Some? <==> IsDigits(s)
  {
    if s == [] then Some(0)
    else
      var last := s[|s| - 1];
      match Digits(s[..|s| - 1])
      case None => None
      case Some(v) => if IsDigit(last) then Some(v * 10 + (last as int - '0' as int)) else None
  }

  /** std::stoi, on the inputs this model accepts: a non-empty run of decimal
      digits whose value fits a 32-bit int. Anything else is None. */
  function Stoi(s: string): (r: Option<int>)
    ensures r.Some? ==> s != [] && IsDigits(s) && Digits(s) == Some(r.value) && 0 <= r.value <= IntMax
    ensures r.None? ==> s == [] || !IsDigits(s) || Digits(s).value > IntMax
  {
    if s == [] then None
    else match Digits(s)
      case None => None
      case Some(v) => if v <= IntMax then Some(v) else None
  }

  /** Printing a number in decimal and reading it back gives the number. */
  lemma {:induction false} DigitsOfNatToString(n: nat)
    ensures Digits(NatToString(n)) == Some(n)
    decreases n
  {
    if n >= 10 {
      DigitsOfNatToString(n / 10);
      var r := NatToString(n);
      assert r[..|r| - 1] == NatToString(n / 10);
    }
  }

  lemma StoiNatToString(n: nat)
    requires n <= IntMax
    ensures Stoi(NatToString(n)) == Some(n)
  {
    DigitsOfNatToString(n);
  }

  /** Different numbers print differently. */
  lemma NatToStringInjective(m: nat, n: nat)
    requires NatToString(m) == NatToString(n)
    ensures m == n
  {
    DigitsOfNatToString(m);
    DigitsOfNatToString(n);
  }
}
