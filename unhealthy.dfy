/**
 * The parsing half of the unhealthy-GPU lookup: the `gpus` entry of a node's
 * unhealthy-GPU config map is a comma-separated list of device indices, split
 * as Go's `strings.Split` does and converted with `strconv.Atoi`. An entry that
 * does not parse still contributes the value `Atoi` returns with its error.
 */
module Unhealthy {
  import opened GoTypes

  /** `strings.Split(s, ",")`: the pieces between commas; never empty, `Split("") == [""]`. */
  function Split(s: string): (parts: seq<string>)
    ensures |parts| >= 1
  {
    if s == [] then [[]]
    else
      var rest := Split(s[1..]);
      if s[0] == ',' then [[]] + rest
      else [[s[0]] + rest[0]] + rest[1..]
  }

  /** `strings.Join(parts, ",")`: the inverse of Split. */
  function Join(parts: seq<string>): string {
    if |parts| == 0 then []
    else if |parts| == 1 then parts[0]
    else parts[0] + [','] + Join(parts[1..])
  }

  predicate CommaFree(p: string) {
    forall i :: 0 <= i < |p| ==> p[i] != ','
  }

  /** Joining the pieces of a split gives back the original text. */
  lemma {:induction false} JoinSplit(s: string)
    ensures Join(Split(s)) == s
  {
    if s != [] {
      JoinSplit(s[1..]);
      var rest := Split(s[1..]);
      if s[0] != ',' && |rest| > 1 {
        assert Join(rest) == rest[0] + [','] + Join(rest[1..]);
      }
    }
  }

  /** No piece of a split holds a comma. */
  lemma {:induction false} SplitPiecesCommaFree(s: string)
    ensures forall i :: 0 <= i < |Split(s)| ==> CommaFree(Split(s)[i])
  {
    if s != [] {
      SplitPiecesCommaFree(s[1..]);
    }
  }

  /** A comma-free prefix merges into the first piece of what follows it. */
  lemma {:induction false} SplitAfterCommaFree(p: string, t: string)
    requires CommaFree(p)
    ensures Split(p + t) == [p + Split(t)[0]] + Split(t)[1..]
  {
    if p != [] {
      assert (p + t)[0] == p[0] && (p + t)[1..] == p[1..] + t;
      SplitAfterCommaFree(p[1..], t);
      assert [p[0]] + (p[1..] + Split(t)[0]) == p + Split(t)[0];
    } else {
      assert p + t == t && p + Split(t)[0] == Split(t)[0];
      assert Split(t) == [Split(t)[0]] + Split(t)[1..];
    }
  }

  lemma CommaFreeSplitsAlone(p: string)
    requires CommaFree(p)
    ensures Split(p) == [p]
  {
    SplitAfterCommaFree(p, []);
    assert p + [] == p;
  }

  /** Splitting a join of comma-free pieces gives back the pieces. */
  lemma {:induction false} SplitJoin(parts: seq<string>)
    requires |parts| >= 1
    requires forall i :: 0 <= i < |parts| ==> CommaFree(parts[i])
    ensures Split(Join(parts)) == parts
  {
    if |parts| == 1 {
      SplitAfterCommaFree(parts[0], []);
      assert parts[0] + [] == parts[0];
    } else {
      SplitJoin(parts[1..]);
      var t := [','] + Join(parts[1..]);
      assert Join(parts) == parts[0] + t;
      SplitAfterCommaFree(parts[0], t);
      assert t[0] == ',' && t[1..] == Join(parts[1..]);
      assert Split(t) == [[]] + parts[1..];
      assert parts[0] + [] == parts[0];
      assert parts == [parts[0]] + parts[1..];
    }
  }

  predicate IsDigit(c: char) { '0' <= c <= '9' }

  function DigitValue(c: char): int
    requires IsDigit(c)
  {
    c as int - '0' as int
  }

  function DigitChar(d: int): (c: char)
    requires 0 <= d < 10
    ensures IsDigit(c) && DigitValue(c) == d
  {
    ('0' as int + d) as char
  }

  /** How the unsigned digit scan of `strconv.ParseUint` in base 10 ends. */
  datatype Scan = Value(n: u64) | Syntax | Overflow

  /**
   * Scans decimal digits left to right onto `acc`: the first character that is
   * not a digit is a syntax error, and a prefix whose value exceeds 2^64 - 1 is
   * a range error, whichever comes first.
   */
  function ScanDigits(s: string, acc: u64): Scan
    decreases |s|
  {
    if s == [] then Value(acc)
    else if !IsDigit(s[0]) then Syntax
    else
      var n := acc * 10 + DigitValue(s[0]);
      if n >= UINT64_MODULUS then Overflow else ScanDigits(s[1..], n)
  }

  /** The value `strconv.Atoi` returns and whether it reported no error. */
  datatype Parsed = Parsed(value: int, ok: bool)

  /**
   * `strconv.Atoi` on a 64-bit platform: an optional sign, then decimal digits.
   * A syntax error yields 0; a value out of the `int` range yields the nearest
   * bound. Both come with an error.
   */
  function Atoi(s: string): Parsed {
    if s == [] then Parsed(0, false)
    else
      var neg := s[0] == '-';
      var digits := if s[0] == '-' || s[0] == '+' then s[1..] else s;
      if digits == [] then Parsed(0, false)
      else
        match ScanDigits(digits, 0)
        case Syntax => Parsed(0, false)
        case Overflow => Parsed(if neg then INT64_MIN else INT64_MAX, false)
        case Value(u) =>
          if !neg && u > INT64_MAX then Parsed(INT64_MAX, false)
          else if neg && u > -INT64_MIN then Parsed(INT64_MIN, false)
          else
            var v: int := if neg then -(u as int) else u;
            Parsed(v, true)
  }

  /** The decimal form of `n`, as `strconv.Itoa` writes it. */
  function Itoa(n: nat): (s: string)
    ensures |s| >= 1
    ensures forall i :: 0 <= i < |s| ==> IsDigit(s[i])
  {
    if n < 10 then [DigitChar(n)] else Itoa(n / 10) + [DigitChar(n % 10)]
  }

  /** Scanning one more character continues from where the shorter scan ended. */
  lemma {:induction false} ScanAppend(s: string, c: char, acc: u64)
    ensures ScanDigits(s + [c], acc) ==
      match ScanDigits(s, acc)
      case Value(v) => ScanDigits([c], v)
      case other => other
    decreases |s|
  {
    if s != [] {
      assert (s + [c])[1..] == s[1..] + [c];
      if IsDigit(s[0]) && acc * 10 + DigitValue(s[0]) < UINT64_MODULUS {
        ScanAppend(s[1..], c, acc * 10 + DigitValue(s[0]));
      }
    }
  }

  lemma {:induction false} ScanItoa(n: nat)
    requires n < UINT64_MODULUS
    ensures ScanDigits(Itoa(n), 0) == Value(n)
  {
    if n >= 10 {
      ScanItoa(n / 10);
      ScanAppend(Itoa(n / 10), DigitChar(n % 10), 0);
      assert ScanDigits([DigitChar(n % 10)], n / 10) == ScanDigits([], n);
    }
  }

  /** Atoi reads back what Itoa writes, without error, for every non-negative `int`. */
  lemma AtoiItoa(n: nat)
    requires n <= INT64_MAX
    ensures Atoi(Itoa(n)) == Parsed(n, true)
  {
    ScanItoa(n);
    assert IsDigit(Itoa(n)[0]);
  }

  /** The set of device indices named by the `gpus` entry, if there is one. */
  function UnhealthyIds(gpus: Option<string>): (ids: set<int>)
  {
    match gpus
    case None => {}
    case Some(s) =>
      var parts := Split(s);
      set j | 0 <= j < |parts| :: Atoi(parts[j]).value
  }

  /** Every index in the set is an `int` that some listed entry parses to (with or without error). */
  lemma UnhealthyIdsFromEntries(s: string, id: int)
    requires id in UnhealthyIds(Some(s))
    ensures exists j :: 0 <= j < |Split(s)| && Atoi(Split(s)[j]).value == id
    ensures INT64_MIN <= id <= INT64_MAX
  {
  }

  /**
   * Writing out a non-empty list of indices and reading it back yields exactly
   * those indices: the partner of the parse.
   */
  lemma UnhealthyIdsRoundTrip(ids: seq<nat>)
    requires |ids| >= 1
    requires forall j :: 0 <= j < |ids| ==> ids[j] <= INT64_MAX
    ensures UnhealthyIds(Some(Join(seq(|ids|, j requires 0 <= j < |ids| => Itoa(ids[j]))))) ==
            set j | 0 <= j < |ids| :: ids[j]
  {
    var parts := seq(|ids|, j requires 0 <= j < |ids| => Itoa(ids[j]));
    forall j | 0 <= j < |parts| ensures CommaFree(parts[j]) && Atoi(parts[j]).value == ids[j] {
      AtoiItoa(ids[j]);
    }
    SplitJoin(parts);
  }

  lemma ListedIds(parts: seq<string>, a: int, b: int)
    requires |parts| == 2 && Atoi(parts[0]).value == a && Atoi(parts[1]).value == b
    ensures (set j | 0 <= j < |parts| :: Atoi(parts[j]).value) == {a, b}
  {
    var ids := set j | 0 <= j < |parts| :: Atoi(parts[j]).value;
    assert a in ids && b in ids;
  }

  /** An empty list is one empty entry, which marks device 0 unhealthy. */
  lemma EmptyListMarksDeviceZero()
    ensures UnhealthyIds(Some("")) == {0}
  {
    var parts := Split("");
    assert parts == [""];
    assert Atoi(parts[0]) == Parsed(0, false);
  }

  /**
   * An entry that starts with neither a sign nor a digit is a syntax error for
   * Atoi, so it marks device 0 unhealthy; every other entry still contributes
   * the index it parses to.
   */
  lemma MalformedEntryMarksDeviceZero(s: string, j: nat)
    requires j < |Split(s)| && |Split(s)[j]| > 0
    requires !IsDigit(Split(s)[j][0]) && Split(s)[j][0] != '-' && Split(s)[j][0] != '+'
    ensures Atoi(Split(s)[j]) == Parsed(0, false)
    ensures 0 in UnhealthyIds(Some(s))
    ensures forall k :: 0 <= k < |Split(s)| ==> Atoi(Split(s)[k]).value in UnhealthyIds(Some(s))
  {
    assert Atoi(Split(s)[j]).value == 0;
  }

  /** For example, `"1,x"` marks devices 0 and 1. */
  lemma MalformedEntryExample()
    ensures UnhealthyIds(Some("1,x")) == {0, 1}
  {
    CommaFreeSplitsAlone("x");
    assert Split(",x") == ["", "x"];
    SplitAfterCommaFree("1", ",x");
    assert "1" + ",x" == "1,x" && "1" + "" == "1";
    assert Atoi("1") == Parsed(1, true);
    assert Atoi("x") == Parsed(0, false);
    assert Split("1,x") == ["1", "x"];
    ListedIds(["1", "x"], 1, 0);
  }

  /** Entries are not trimmed: a space before an index makes it a malformed entry. */
  lemma SpacedEntryMarksDeviceZero()
    ensures UnhealthyIds(Some("2, 3")) == {0, 2}
  {
    CommaFreeSplitsAlone(" 3");
    assert Split(", 3") == ["", " 3"];
    SplitAfterCommaFree("2", ", 3");
    assert "2" + ", 3" == "2, 3" && "2" + "" == "2";
    assert Atoi("2") == Parsed(2, true);
    assert Atoi(" 3") == Parsed(0, false);
    assert Split("2, 3") == ["2", " 3"];
    ListedIds(["2", " 3"], 2, 0);
  }

  /** The lookup loop: absence of the entry means no unhealthy devices. */
  method GetUnhealthyGPUs(gpus: Option<string>) returns (ids: set<int>)
    ensures ids == UnhealthyIds(gpus)
  {
    ids := {};
    if gpus.None? {
      return;
    }
    var parts := Split(gpus.value);
    var i := 0;
    while i < |parts|
      invariant 0 <= i <= |parts|
      invariant ids == set j | 0 <= j < i :: Atoi(parts[j]).value
    {
      var parsed := Atoi(parts[i]);
      ids := ids + {parsed.value};
      i := i + 1;
    }
  }
}
