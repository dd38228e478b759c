/**
 * Weighted weekday assignment (pkg/utils/weekday.go): a list of per-day weights
 * becomes consecutive integer intervals, one per positive weight and as wide as
 * that weight, and a value drawn from `0 .. total - 1` is mapped back to the day
 * whose interval holds it. A textual form `Mon=1, Sun=2` is parsed into the
 * seven weights, indexed from Sunday = 0 to Saturday = 6.
 */
module Weekday {
  import opened Wrappers
  import opened Seqs

  // --- weights and intervals -----------------------------------------------------------

  /** The values `min .. max` are assigned to the day `entry`. */
  datatype Interval = Interval(min: int, max: int, entry: nat)

  datatype Weight = Weight(total: int, intervals: seq<Interval>)

  /** The sum of the positive weights. */
  function SumPositive(w: seq<int>): (r: int)
    ensures r >= 0
  {
    if w == [] then 0
    else SumPositive(w[..|w| - 1]) + (if w[|w| - 1] > 0 then w[|w| - 1] else 0)
  }

  /** Each interval belongs to a day of positive weight among the first `n` and is as wide as that weight. */
  ghost predicate Widths(iv: seq<Interval>, w: seq<int>, n: nat)
    requires n <= |w|
  {
    forall k :: 0 <= k < |iv| ==> iv[k].entry < n && w[iv[k].entry] > 0 && iv[k].max - iv[k].min + 1 == w[iv[k].entry]
  }

  /** Days increase from one interval to the next, and each interval starts right after the previous one. */
  ghost predicate Chained(iv: seq<Interval>)
  {
    forall j, k :: 0 <= j < k < |iv| && k == j + 1 ==> iv[j].entry < iv[k].entry && iv[k].min == iv[j].max + 1
  }

  /** Every day of positive weight among the first `n` has an interval. */
  ghost predicate CoversPositive(iv: seq<Interval>, w: seq<int>, n: nat)
    requires n <= |w|
  {
    forall e :: 0 <= e < n && w[e] > 0 ==> exists k :: 0 <= k < |iv| && iv[k].entry == e
  }

  /** The first interval starts at 0 and the last one ends at `total - 1`; no interval means a zero total. */
  ghost predicate Ends(weight: Weight)
  {
    var iv := weight.intervals;
    (|iv| == 0 ==> weight.total == 0) && (|iv| > 0 ==> iv[0].min == 0 && iv[|iv| - 1].max == weight.total - 1)
  }

  /** `weight` is the interval structure of the first `n` weights of `w`. */
  ghost predicate BuiltUpTo(weight: Weight, w: seq<int>, n: nat)
    requires n <= |w|
  {
    weight.total == SumPositive(w[..n]) && Widths(weight.intervals, w, n) && Chained(weight.intervals)
    && CoversPositive(weight.intervals, w, n) && Ends(weight)
  }

  /**
   * `weight` is the interval structure of the weights `w`: one interval per
   * positive weight, in increasing day order, the first starting at 0, each
   * starting right after the previous one and as wide as its day's weight, and
   * `total` the sum of the positive weights.
   */
  ghost predicate BuiltFrom(weight: Weight, w: seq<int>)
  {
    BuiltUpTo(weight, w, |w|)
  }

  /** The loop step of CreateWeight for the day `entry` of weight `n`. */
  function Extend(weight: Weight, entry: nat, n: int): Weight
  {
    if n > 0 then Weight(weight.total + n, weight.intervals + [Interval(weight.total, weight.total + n - 1, entry)])
    else weight
  }

  /** One more day keeps the structure built from the weights seen so far. */
  lemma ExtendBuilds(weight: Weight, w: seq<int>, entry: nat)
    requires entry < |w| && BuiltUpTo(weight, w, entry)
    ensures BuiltUpTo(Extend(weight, entry, w[entry]), w, entry + 1)
  {
    ExtendSum(weight, w, entry);
    ExtendWidths(weight, w, entry);
    ExtendChained(weight, w, entry);
    ExtendCovers(weight, w, entry);
  }

  lemma ExtendSum(weight: Weight, w: seq<int>, entry: nat)
    requires entry < |w| && weight.total == SumPositive(w[..entry])
    ensures Extend(weight, entry, w[entry]).total == SumPositive(w[..entry + 1])
  {
    assert w[..entry + 1][..entry] == w[..entry];
  }

  lemma ExtendWidths(weight: Weight, w: seq<int>, entry: nat)
    requires entry < |w| && Widths(weight.intervals, w, entry)
    ensures Widths(Extend(weight, entry, w[entry]).intervals, w, entry + 1)
  {
  }

  lemma ExtendChained(weight: Weight, w: seq<int>, entry: nat)
    requires entry < |w| && Widths(weight.intervals, w, entry) && Chained(weight.intervals) && Ends(weight)
    ensures Chained(Extend(weight, entry, w[entry]).intervals)
  {
  }

  lemma ExtendCovers(weight: Weight, w: seq<int>, entry: nat)
    requires entry < |w| && CoversPositive(weight.intervals, w, entry)
    ensures CoversPositive(Extend(weight, entry, w[entry]).intervals, w, entry + 1)
  {
    var iv := Extend(weight, entry, w[entry]).intervals;
    forall e | 0 <= e < entry + 1 && w[e] > 0
      ensures exists k :: 0 <= k < |iv| && iv[k].entry == e
    {
      if e < entry {
        var k :| 0 <= k < |weight.intervals| && weight.intervals[k].entry == e;
        assert iv[k] == weight.intervals[k];
      } else {
        assert iv[|iv| - 1].entry == e;
      }
    }
  }

  /** The weight CreateWeight holds after its loop has seen the first `n` days. */
  function Build(w: seq<int>, n: nat): Weight
    requires n <= |w|
  {
    if n == 0 then Weight(0, []) else Extend(Build(w, n - 1), n - 1, w[n - 1])
  }

  /** The loop's weight after `n` days is the interval structure of those days. */
  lemma {:induction false} BuildBuilds(w: seq<int>, n: nat)
    requires n <= |w|
    ensures BuiltUpTo(Build(w, n), w, n)
  {
    if n == 0 {
      assert w[..0] == [];
    } else {
      BuildBuilds(w, n - 1);
      BuildStep(w, n);
    }
  }

  lemma BuildStep(w: seq<int>, n: nat)
    requires 0 < n <= |w| && BuiltUpTo(Build(w, n - 1), w, n - 1)
    ensures BuiltUpTo(Build(w, n), w, n)
  {
    ExtendBuilds(Build(w, n - 1), w, n - 1);
  }

  /** CreateWeight. */
  method CreateWeight(w: seq<int>) returns (weight: Weight)
    ensures BuiltFrom(weight, w)
  {
    var cumulated := 0;
    var intervals: seq<Interval> := [];
    for entry := 0 to |w|
      invariant Weight(cumulated, intervals) == Build(w, entry)
    {
      if w[entry] > 0 {
        var min := cumulated;
        cumulated := cumulated + w[entry];
        intervals := intervals + [Interval(min, cumulated - 1, entry)];
      }
    }
    weight := Weight(cumulated, intervals);
    BuildBuilds(w, |w|);
  }

  function Covering(v: int): Interval -> bool
  {
    (i: Interval) => i.min <= v <= i.max
  }

  /** The entry Lookup picks for a value that is not negative: the first interval holding it, else the last one. */
  function Pick(intervals: seq<Interval>, v: int): int
  {
    match IndexWhere(intervals, Covering(v))
    case Some(k) => intervals[k].entry
    case None => if intervals == [] then 0 else intervals[|intervals| - 1].entry
  }

  /** Lookup: a negative value counts as 0. */
  method Lookup(weight: Weight, value: int) returns (r: int)
    ensures r == Pick(weight.intervals, if value < 0 then 0 else value)
  {
    var v := value;
    if v < 0 {
      v := 0;
    }
    var last := 0;
    for k := 0 to |weight.intervals|
      invariant forall m :: 0 <= m < k ==> !Covering(v)(weight.intervals[m])
      invariant last == if k == 0 then 0 else weight.intervals[k - 1].entry
    {
      var interval := weight.intervals[k];
      if v >= interval.min && v <= interval.max {
        assert IndexWhere(weight.intervals, Covering(v)) == Some(k);
        return interval.entry;
      }
      last := interval.entry;
    }
    assert IndexWhere(weight.intervals, Covering(v)).None?;
    return last;
  }

  // --- properties of weights ------------------------------------------------------------

  /** The intervals of a built weight are disjoint and ordered: an earlier one ends before a later one starts. */
  lemma {:induction false} IntervalsOrdered(weight: Weight, w: seq<int>, i: nat, j: nat)
    requires BuiltFrom(weight, w)
    requires i < j < |weight.intervals|
    ensures weight.intervals[i].max < weight.intervals[j].min
    ensures weight.intervals[i].entry < weight.intervals[j].entry
    decreases j - i
  {
    var iv := weight.intervals;
    if i + 1 < j {
      IntervalsOrdered(weight, w, i + 1, j);
    }
  }

  /** Every value of an interval is looked up as that interval's day. */
  lemma LookupWithinInterval(weight: Weight, w: seq<int>, k: nat, v: int)
    requires BuiltFrom(weight, w)
    requires k < |weight.intervals| && weight.intervals[k].min <= v <= weight.intervals[k].max
    ensures Pick(weight.intervals, v) == weight.intervals[k].entry
  {
    match IndexWhere(weight.intervals, Covering(v))
    case None =>
    case Some(j) =>
      if j < k {
        IntervalsOrdered(weight, w, j, k);
      }
  }

  /** The intervals of a built weight cover exactly `0 .. total - 1`. */
  lemma IntervalsCover(weight: Weight, w: seq<int>, v: int)
    requires BuiltFrom(weight, w)
    ensures (0 <= v < weight.total) <==> exists k :: 0 <= k < |weight.intervals| && Covering(v)(weight.intervals[k])
  {
    if 0 <= v < weight.total {
      CoveredUpTo(weight, w, |weight.intervals| - 1, v);
    } else if k :| 0 <= k < |weight.intervals| && Covering(v)(weight.intervals[k]) {
      CoveredWithinTotal(weight, w, k, v);
    }
  }

  lemma CoveredWithinTotal(weight: Weight, w: seq<int>, k: nat, v: int)
    requires BuiltFrom(weight, w)
    requires k < |weight.intervals| && Covering(v)(weight.intervals[k])
    ensures 0 <= v < weight.total
  {
    var iv := weight.intervals;
    if k > 0 {
      IntervalsOrdered(weight, w, 0, k);
    }
    if k < |iv| - 1 {
      IntervalsOrdered(weight, w, k, |iv| - 1);
    }
  }

  lemma {:induction false} CoveredUpTo(weight: Weight, w: seq<int>, n: nat, v: int)
    requires BuiltFrom(weight, w)
    requires n < |weight.intervals|
    requires 0 <= v <= weight.intervals[n].max
    ensures exists k :: 0 <= k <= n && Covering(v)(weight.intervals[k])
  {
    if n > 0 && v < weight.intervals[n].min {
      CoveredUpTo(weight, w, n - 1, v);
    } else {
      assert Covering(v)(weight.intervals[n]);
    }
  }

  /**
   * Lookup of a value in `0 .. total - 1` returns the day whose interval holds it,
   * a day of positive weight; a value at or beyond `total` gives the last day with
   * an interval, or 0 when there is none.
   */
  lemma LookupMeaning(weight: Weight, w: seq<int>, v: int)
    requires BuiltFrom(weight, w)
    requires v >= 0
    ensures v < weight.total ==>
      exists k :: 0 <= k < |weight.intervals| && Covering(v)(weight.intervals[k])
                  && Pick(weight.intervals, v) == weight.intervals[k].entry
                  && w[Pick(weight.intervals, v)] > 0
    ensures v >= weight.total && weight.intervals == [] ==> Pick(weight.intervals, v) == 0
    ensures v >= weight.total && weight.intervals != [] ==>
      Pick(weight.intervals, v) == weight.intervals[|weight.intervals| - 1].entry
  {
    IntervalsCover(weight, w, v);
    if v < weight.total {
      var k :| 0 <= k < |weight.intervals| && Covering(v)(weight.intervals[k]);
      LookupWithinInterval(weight, w, k, v);
    }
  }

  /** A day of positive weight `n` is picked for exactly `n` consecutive values. */
  lemma DayShare(weight: Weight, w: seq<int>, e: nat)
    requires BuiltFrom(weight, w)
    requires e < |w| && w[e] > 0
    ensures exists k :: 0 <= k < |weight.intervals| && weight.intervals[k].entry == e
              && weight.intervals[k].max - weight.intervals[k].min + 1 == w[e]
              && forall v :: weight.intervals[k].min <= v <= weight.intervals[k].max ==> Pick(weight.intervals, v) == e
  {
    var k :| 0 <= k < |weight.intervals| && weight.intervals[k].entry == e;
    forall v | weight.intervals[k].min <= v <= weight.intervals[k].max
      ensures Pick(weight.intervals, v) == e
    {
      LookupWithinInterval(weight, w, k, v);
    }
  }

  // --- the textual form -----------------------------------------------------------------

  /** The pieces of `s` between the occurrences of `c` (strings.Split with a one-character separator). */
  function Split(s: string, c: char): (r: seq<string>)
    ensures |r| >= 1
  {
    if s == [] then [""]
    else
      var rest := Split(s[1..], c);
      if s[0] == c then [""] + rest else [[s[0]] + rest[0]] + rest[1..]
  }

  /** The pieces joined back with `c` between them. */
  function Join(parts: seq<string>, c: char): string
  {
    if parts == [] then ""
    else if |parts| == 1 then parts[0]
    else parts[0] + [c] + Join(parts[1..], c)
  }

  /** No piece of a split contains the separator. */
  lemma {:induction false} SplitPiecesFree(s: string, c: char)
    ensures forall k :: 0 <= k < |Split(s, c)| ==> c !in Split(s, c)[k]
  {
    if s != [] {
      SplitPiecesFree(s[1..], c);
      var rest := Split(s[1..], c);
      if s[0] != c {
        assert c !in [s[0]] + rest[0];
      }
    }
  }

  /** Splitting loses nothing: joining the pieces gives the text back. */
  lemma {:induction false} SplitJoin(s: string, c: char)
    ensures Join(Split(s, c), c) == s
  {
    if s != [] {
      var rest := Split(s[1..], c);
      SplitJoin(s[1..], c);
      if s[0] == c {
        assert ([""] + rest)[1..] == rest;
      } else {
        var r := [[s[0]] + rest[0]] + rest[1..];
        assert r[1..] == rest[1..];
        if |rest| > 1 {
          assert Join(rest, c) == rest[0] + [c] + Join(rest[1..], c);
        }
      }
    }
  }

  /** The text of `t` before the first `c`, or all of `t` when it has none. */
  function Upto(t: string, c: char): (r: string)
    ensures r <= t && c !in r
    ensures |r| < |t| ==> t[|r|] == c
  {
    if t == [] || t[0] == c then "" else [t[0]] + Upto(t[1..], c)
  }

  /** The first piece of a split is the text before the first separator. */
  lemma {:induction false} SplitFirst(t: string, c: char)
    ensures Split(t, c)[0] == Upto(t, c)
    ensures c in t ==> |Split(t, c)| >= 2 && Split(t, c)[1..] == Split(t[|Upto(t, c)| + 1..], c)
    ensures c !in t ==> Split(t, c) == [t]
  {
    if t != [] && t[0] != c {
      SplitFirst(t[1..], c);
      if c in t {
        assert c in t[1..];
        assert t[1..][|Upto(t[1..], c)| + 1..] == t[|Upto(t, c)| + 1..];
      } else {
        assert [t[0]] + t[1..] == t;
      }
    }
  }

  /** Without `c` there is one piece; with it, the first two pieces are the texts before and after its first occurrence. */
  lemma SplitPieces(s: string, c: char)
    ensures c !in s ==> |Split(s, c)| == 1
    ensures c in s ==> |Split(s, c)| >= 2 && Split(s, c)[0] == Upto(s, c)
                       && Split(s, c)[1] == Upto(s[|Upto(s, c)| + 1..], c)
  {
    SplitFirst(s, c);
    if c in s {
      SplitFirst(s[|Upto(s, c)| + 1..], c);
    }
  }

  /** The white space that strings.TrimSpace removes. */
  predicate IsSpace(c: char)
  {
    c == '\t' || c == '\n' || c == '\U{000B}' || c == '\U{000C}' || c == '\r' || c == ' ' || c == '\U{0085}' || c == '\U{00A0}'
    || c == '\U{1680}' || ('\U{2000}' <= c <= '\U{200A}') || c == '\U{2028}' || c == '\U{2029}' || c == '\U{202F}'
    || c == '\U{205F}' || c == '\U{3000}'
  }

  /** The number of white-space characters `s` starts with. */
  function LeadingSpaces(s: string): (n: nat)
    ensures n <= |s|
  {
    if s != [] && IsSpace(s[0]) then 1 + LeadingSpaces(s[1..]) else 0
  }

  /** The number of white-space characters `s` ends with. */
  function TrailingSpaces(s: string): (n: nat)
    ensures n <= |s|
  {
    if s != [] && IsSpace(s[|s| - 1]) then 1 + TrailingSpaces(s[..|s| - 1]) else 0
  }

  /** strings.TrimSpace: the part of `s` left once leading and trailing white space is cut off. */
  function TrimSpace(s: string): string
  {
    var i := LeadingSpaces(s);
    s[i..|s| - TrailingSpaces(s[i..])]
  }

  /** The leading white space is white space, and the character after it is not. */
  lemma {:induction false} LeadingMeaning(s: string)
    ensures forall k :: 0 <= k < LeadingSpaces(s) ==> IsSpace(s[k])
    ensures LeadingSpaces(s) < |s| ==> !IsSpace(s[LeadingSpaces(s)])
  {
    if s != [] && IsSpace(s[0]) {
      LeadingMeaning(s[1..]);
      forall k | 0 < k < LeadingSpaces(s)
        ensures IsSpace(s[k])
      {
        assert s[k] == s[1..][k - 1];
      }
      if LeadingSpaces(s) < |s| {
        assert s[LeadingSpaces(s)] == s[1..][LeadingSpaces(s[1..])];
      }
    }
  }

  /** The trailing white space is white space, and the character before it is not. */
  lemma {:induction false} TrailingMeaning(s: string)
    ensures forall k :: |s| - TrailingSpaces(s) <= k < |s| ==> IsSpace(s[k])
    ensures TrailingSpaces(s) < |s| ==> !IsSpace(s[|s| - 1 - TrailingSpaces(s)])
  {
    if s != [] && IsSpace(s[|s| - 1]) {
      var p := s[..|s| - 1];
      TrailingMeaning(p);
      forall k | |s| - TrailingSpaces(s) <= k < |s| - 1
        ensures IsSpace(s[k])
      {
        assert s[k] == p[k];
      }
      if TrailingSpaces(s) < |s| {
        assert s[|s| - 1 - TrailingSpaces(s)] == p[|p| - 1 - TrailingSpaces(p)];
      }
    }
  }

  /** `r` is the slice `s[i..j]`, and everything of `s` outside it is white space. */
  ghost predicate TrimmedSlice(s: string, r: string, i: int, j: int)
  {
    0 <= i <= j <= |s| && r == s[i..j]
    && (forall k :: 0 <= k < i ==> IsSpace(s[k])) && (forall k :: j <= k < |s| ==> IsSpace(s[k]))
  }

  /** TrimSpace leaves a slice of `s` with only white space cut off around it, and no white space at its ends. */
  lemma TrimSpaceMeaning(s: string)
    ensures exists i, j :: TrimmedSlice(s, TrimSpace(s), i, j)
    ensures TrimSpace(s) == [] || (!IsSpace(TrimSpace(s)[0]) && !IsSpace(TrimSpace(s)[|TrimSpace(s)| - 1]))
  {
    var i := LeadingSpaces(s);
    var t := s[i..];
    var j := |s| - TrailingSpaces(t);
    LeadingMeaning(s);
    TrailingMeaning(t);
    forall k | j <= k < |s|
      ensures IsSpace(s[k])
    {
      assert s[k] == t[k - i];
    }
    assert TrimmedSlice(s, TrimSpace(s), i, j);
    if i < j {
      assert TrimSpace(s)[0] == s[i];
      assert TrimSpace(s)[j - i - 1] == t[|t| - 1 - TrailingSpaces(t)];
    }
  }

  /**
   * unicode.ToLower on one rune, as far as it can reach ASCII: A to Z lower to a to z,
   * U+0130 (capital I with dot above) lowers to `i` and U+212A (Kelvin sign) to `k`.
   * Every other rune Go lowers maps to a non-ASCII rune; the model keeps it.
   */
  function LowerRune(c: char): (r: char)
    // only the three cases above can produce an ASCII letter, and none leaves an upper-case one
    ensures 'a' <= r <= 'z' <==> 'a' <= c <= 'z' || 'A' <= c <= 'Z' || c == '\U{0130}' || c == '\U{212A}'
    ensures !('A' <= r <= 'Z')
    ensures 'A' <= c <= 'Z' ==> r as int == c as int + 32
    ensures c == '\U{0130}' ==> r == 'i'
    ensures c == '\U{212A}' ==> r == 'k'
    ensures !('A' <= c <= 'Z' || c == '\U{0130}' || c == '\U{212A}') ==> r == c
  {
    if 'A' <= c <= 'Z' then (c as int + 32) as char
    else if c == '\U{0130}' then 'i'
    else if c == '\U{212A}' then 'k'
    else c
  }

  /** strings.ToLower, rune by rune. */
  function ToLower(s: string): (r: string)
    ensures |r| == |s|
    ensures forall k :: 0 <= k < |s| ==> r[k] == LowerRune(s[k])
  {
    if s == [] then ""
    else [LowerRune(s[0])] + ToLower(s[1..])
  }

  /** parseTuple: split on `=`; fewer than two pieces give two empty strings. */
  function ParseTuple(str: string): (string, string)
  {
    var parts := Split(str, '=');
    if |parts| < 2 then ("", "") else (ToLower(TrimSpace(parts[0])), TrimSpace(parts[1]))
  }

  /**
   * With no `=` in `str`, parseTuple gives two empty strings; otherwise the
   * lower-cased trimmed text before the first `=`, and the trimmed text between it
   * and the next `=` (or the end).
   */
  lemma ParseTupleMeaning(str: string)
    ensures '=' !in str ==> ParseTuple(str) == ("", "")
    ensures '=' in str ==>
      var name := Upto(str, '=');
      ParseTuple(str) == (ToLower(TrimSpace(name)), TrimSpace(Upto(str[|name| + 1..], '=')))
  {
    SplitPieces(str, '=');
  }

  const MinInt := -0x8000_0000_0000_0000
  const MaxInt := 0x7fff_ffff_ffff_ffff

  predicate IsDigit(c: char)
  {
    '0' <= c <= '9'
  }

  function DigitsValue(ds: string): nat
    requires forall k :: 0 <= k < |ds| ==> IsDigit(ds[k])
  {
    if ds == [] then 0
    else
      assert IsDigit(ds[|ds| - 1]);
      DigitsValue(ds[..|ds| - 1]) * 10 + (ds[|ds| - 1] as int - '0' as int)
  }

  /** strconv.Atoi in base 10: an optional sign, at least one digit, and a value that fits 64 bits. */
  function Atoi(s: string): (r: Option<int>)
    ensures r.Some? ==> MinInt <= r.value <= MaxInt
  {
    var negative := |s| > 0 && s[0] == '-';
    var digits := if |s| > 0 && (s[0] == '-' || s[0] == '+') then s[1..] else s;
    if digits == [] || exists k :: 0 <= k < |digits| && !IsDigit(digits[k]) then None
    else
      var n := if negative then -(DigitsValue(digits) as int) else DigitsValue(digits) as int;
      if MinInt <= n <= MaxInt then Some(n) else None
  }

  /** The decimal digits of a number. */
  function Decimal(n: nat): (r: string)
    ensures |r| >= 1 && forall k :: 0 <= k < |r| ==> IsDigit(r[k])
  {
    if n < 10 then [('0' as int + n) as char] else Decimal(n / 10) + [('0' as int + n % 10) as char]
  }

  lemma {:induction false} DigitsOfDecimal(n: nat)
    ensures DigitsValue(Decimal(n)) == n
  {
    if n >= 10 {
      DigitsOfDecimal(n / 10);
      assert Decimal(n)[..|Decimal(n)| - 1] == Decimal(n / 10);
    }
  }

  /** Atoi reads back every 64-bit value written in decimal, with a sign for negative ones. */
  lemma AtoiDecimal(n: int)
    requires MinInt <= n <= MaxInt
    ensures n >= 0 ==> Atoi(Decimal(n)) == Some(n)
    ensures n < 0 ==> Atoi("-" + Decimal(-n)) == Some(n)
    ensures n >= 0 ==> Atoi("+" + Decimal(n)) == Some(n)
  {
    if n >= 0 {
      DigitsOfDecimal(n);
      assert ("+" + Decimal(n))[1..] == Decimal(n);
    } else {
      DigitsOfDecimal(-n);
      assert ("-" + Decimal(-n))[1..] == Decimal(-n);
    }
  }

  /** A day of the week, Sunday = 0 to Saturday = 6. */
  type Day = d: nat | d < 7

  /** The day names, indexed from Sunday = 0 to Saturday = 6. */
  function DayIndex(name: string): (r: Option<Day>)
  {
    match name
    case "sun" => Some(0)
    case "mon" => Some(1)
    case "tue" => Some(2)
    case "wed" => Some(3)
    case "thu" => Some(4)
    case "fri" => Some(5)
    case "sat" => Some(6)
    case _ => None
  }

  datatype ParseError =
    | MissingDayName(entry: nat)
    | InvalidDayName(name: string, entry: nat)
    | InvalidWeight(value: string, entry: nat)
    | NegativeWeight(entry: nat)

  datatype DayWeight = DayWeight(day: Day, weight: int)

  /** How one entry at a given position is read. */
  type EntryReader = (string, nat) -> Result<DayWeight, ParseError>

  /** The checks applied to the entry at position `idx`, in their order. */
  function ParseEntry(d: string, idx: nat): Result<DayWeight, ParseError>
  {
    var t := ParseTuple(d);
    var name, value := t.0, t.1;
    if name == "" then Err(MissingDayName(idx))
    else match DayIndex(name)
      case None => Err(InvalidDayName(name, idx))
      case Some(day) =>
        match Atoi(value)
        case None => Err(InvalidWeight(value, idx))
        case Some(w) => if w < 0 then Err(NegativeWeight(idx)) else Ok(DayWeight(day, w))
  }

  /**
   * An entry is good exactly when it names a day and carries an integer weight
   * that is not negative; an error names the entry's position.
   */
  lemma ParseEntryMeaning(d: string, idx: nat)
    ensures ParseEntry(d, idx).Ok? <==> ParseTuple(d).0 != "" && DayIndex(ParseTuple(d).0).Some?
                                        && Atoi(ParseTuple(d).1).Some? && Atoi(ParseTuple(d).1).value >= 0
    ensures ParseEntry(d, idx).Ok? ==>
      ParseEntry(d, idx).value == DayWeight(DayIndex(ParseTuple(d).0).value, Atoi(ParseTuple(d).1).value)
    ensures ParseEntry(d, idx).Err? ==> ParseEntry(d, idx).error.entry == idx
  {
    var t := ParseTuple(d);
    if t.0 != "" {
      match DayIndex(t.0)
      case None =>
      case Some(day) =>
        match Atoi(t.1)
        case None =>
        case Some(w) =>
    }
  }

  datatype Parsed = Parsed(weights: seq<int>, err: Option<ParseError>)

  /** The entries from position `idx` on, read by `parse` and applied to `weights`; the first bad entry stops the parse. */
  function Assign(entries: seq<string>, idx: nat, weights: seq<int>, parse: EntryReader): (r: Parsed)
    requires |weights| == 7
    ensures |r.weights| == 7
    decreases |entries|
  {
    if entries == [] then Parsed(weights, None)
    else match parse(entries[0], idx)
      case Err(e) => Parsed(weights, Some(e))
      case Ok(dw) => Assign(entries[1..], idx + 1, weights[dw.day := dw.weight], parse)
  }

  const Unweighted: seq<int> := [0, 0, 0, 0, 0, 0, 0]

  /** The weights a text describes, and the first error if any. */
  function ParseSpec(str: string): Parsed
  {
    Assign(Split(str, ','), 0, Unweighted, ParseEntry)
  }

  /** ParseWeeklyWeight: the weights are returned as far as they were filled in, also on an error. */
  method ParseWeeklyWeight(str: string) returns (weights: seq<int>, err: Option<ParseError>)
    ensures Parsed(weights, err) == ParseSpec(str)
  {
    var slots := new int[7](_ => 0);
    assert slots[..] == Unweighted;
    var wdays := Split(str, ',');
    for idx := 0 to |wdays|
      invariant Assign(wdays, 0, Unweighted, ParseEntry) == Assign(wdays[idx..], idx, slots[..], ParseEntry)
    {
      assert wdays[idx..][0] == wdays[idx] && wdays[idx..][1..] == wdays[idx + 1..];
      var t := ParseTuple(wdays[idx]);
      var name, value := t.0, t.1;
      if name == "" {
        return slots[..], Some(MissingDayName(idx));
      }
      var dayIndex := DayIndex(name);
      if dayIndex.None? {
        return slots[..], Some(InvalidDayName(name, idx));
      }
      var w := Atoi(value);
      if w.None? {
        return slots[..], Some(InvalidWeight(value, idx));
      }
      if w.value < 0 {
        return slots[..], Some(NegativeWeight(idx));
      }
      slots[dayIndex.value] := w.value;
    }
    assert wdays[|wdays|..] == [];
    return slots[..], None;
  }

  // --- properties of the parse ------------------------------------------------------------

  /** The parse fails exactly when some entry is bad, and then with the error of the first bad entry. */
  lemma FirstBadEntryDecides(entries: seq<string>, idx: nat, weights: seq<int>, parse: EntryReader)
    requires |weights| == 7
    ensures Assign(entries, idx, weights, parse).err.None? <==> forall k :: 0 <= k < |entries| ==> parse(entries[k], idx + k).Ok?
    ensures Assign(entries, idx, weights, parse).err.Some? ==>
      exists k :: 0 <= k < |entries| && parse(entries[k], idx + k) == Err(Assign(entries, idx, weights, parse).err.value)
                  && forall j :: 0 <= j < k ==> parse(entries[j], idx + j).Ok?
  {
    NoErrorIffAllGood(entries, idx, weights, parse);
    ErrorIsFirstBad(entries, idx, weights, parse);
  }

  /** The entries after the first are all good when read from the next position on. */
  ghost predicate AllGood(entries: seq<string>, idx: nat, parse: EntryReader)
  {
    forall k :: 0 <= k < |entries| ==> parse(entries[k], idx + k).Ok?
  }

  lemma AllGoodShift(entries: seq<string>, idx: nat, parse: EntryReader)
    requires entries != []
    ensures AllGood(entries, idx, parse) <==> parse(entries[0], idx).Ok? && AllGood(entries[1..], idx + 1, parse)
  {
    if parse(entries[0], idx).Ok? && AllGood(entries[1..], idx + 1, parse) {
      forall k | 0 <= k < |entries|
        ensures parse(entries[k], idx + k).Ok?
      {
        if k > 0 {
          assert entries[k] == entries[1..][k - 1];
        }
      }
    }
    if AllGood(entries, idx, parse) {
      forall k | 0 <= k < |entries| - 1
        ensures parse(entries[1..][k], idx + 1 + k).Ok?
      {
        assert entries[1..][k] == entries[k + 1];
      }
    }
  }

  lemma {:induction false} NoErrorIffAllGood(entries: seq<string>, idx: nat, weights: seq<int>, parse: EntryReader)
    requires |weights| == 7
    ensures Assign(entries, idx, weights, parse).err.None? <==> AllGood(entries, idx, parse)
    decreases |entries|
  {
    if entries != [] {
      AllGoodShift(entries, idx, parse);
      match parse(entries[0], idx)
      case Err(e) =>
      case Ok(dw) => NoErrorIffAllGood(entries[1..], idx + 1, weights[dw.day := dw.weight], parse);
    }
  }

  /** The entry at `k` is bad and every entry before it is good. */
  ghost predicate FirstBadAt(entries: seq<string>, idx: nat, parse: EntryReader, k: nat, e: ParseError)
  {
    k < |entries| && parse(entries[k], idx + k) == Err(e) && forall j :: 0 <= j < k ==> parse(entries[j], idx + j).Ok?
  }

  lemma FirstBadShift(entries: seq<string>, idx: nat, parse: EntryReader, k: nat, e: ParseError)
    requires entries != [] && parse(entries[0], idx).Ok? && FirstBadAt(entries[1..], idx + 1, parse, k, e)
    ensures FirstBadAt(entries, idx, parse, k + 1, e)
  {
    var rest := entries[1..];
    assert entries[k + 1] == rest[k];
    forall j | 0 <= j < k + 1
      ensures parse(entries[j], idx + j).Ok?
    {
      if j > 0 {
        assert entries[j] == rest[j - 1];
      }
    }
  }

  lemma {:induction false} ErrorIsFirstBad(entries: seq<string>, idx: nat, weights: seq<int>, parse: EntryReader)
    requires |weights| == 7
    ensures Assign(entries, idx, weights, parse).err.Some? ==>
      exists k :: FirstBadAt(entries, idx, parse, k, Assign(entries, idx, weights, parse).err.value)
    decreases |entries|
  {
    if entries != [] {
      match parse(entries[0], idx)
      case Err(e) =>
        assert FirstBadAt(entries, idx, parse, 0, e);
      case Ok(dw) =>
        var next := weights[dw.day := dw.weight];
        ErrorIsFirstBad(entries[1..], idx + 1, next, parse);
        if Assign(entries, idx, weights, parse).err.Some? {
          var e := Assign(entries, idx, weights, parse).err.value;
          var k :| FirstBadAt(entries[1..], idx + 1, parse, k, e);
          FirstBadShift(entries, idx, parse, k, e);
        }
    }
  }

  /** The day an entry at position `i` names, if it is a good entry. */
  function DayOf(parse: EntryReader, e: string, i: nat): Option<Day>
  {
    match parse(e, i)
    case Ok(dw) => Some(dw.day)
    case Err(_) => None
  }

  /** After a parse without error, a day that no entry names keeps its previous weight. */
  lemma {:induction false} UnnamedDayKept(entries: seq<string>, idx: nat, weights: seq<int>, parse: EntryReader, d: Day)
    requires |weights| == 7
    requires Assign(entries, idx, weights, parse).err.None?
    requires forall k :: 0 <= k < |entries| ==> DayOf(parse, entries[k], idx + k) != Some(d)
    ensures Assign(entries, idx, weights, parse).weights[d] == weights[d]
    decreases |entries|
  {
    if entries != [] {
      var dw := parse(entries[0], idx).value;
      var rest := entries[1..];
      assert DayOf(parse, entries[0], idx) != Some(d);
      forall j | 0 <= j < |rest|
        ensures DayOf(parse, rest[j], idx + 1 + j) != Some(d)
      {
        assert rest[j] == entries[j + 1];
      }
      UnnamedDayKept(rest, idx + 1, weights[dw.day := dw.weight], parse, d);
    }
  }

  /** After a parse without error, a day has the weight of the last entry naming it. */
  lemma {:induction false} LastEntryWins(entries: seq<string>, idx: nat, weights: seq<int>, parse: EntryReader, d: Day, k: nat)
    requires |weights| == 7
    requires Assign(entries, idx, weights, parse).err.None?
    requires k < |entries| && DayOf(parse, entries[k], idx + k) == Some(d)
    requires forall j :: k < j < |entries| ==> DayOf(parse, entries[j], idx + j) != Some(d)
    ensures Assign(entries, idx, weights, parse).weights[d] == parse(entries[k], idx + k).value.weight
    decreases k
  {
    var dw := parse(entries[0], idx).value;
    var rest, next := entries[1..], weights[dw.day := dw.weight];
    if k == 0 {
      forall j | 0 <= j < |rest|
        ensures DayOf(parse, rest[j], idx + 1 + j) != Some(d)
      {
        assert rest[j] == entries[j + 1];
      }
      UnnamedDayKept(rest, idx + 1, next, parse, d);
    } else {
      assert rest[k - 1] == entries[k];
      forall j | k - 1 < j < |rest|
        ensures DayOf(parse, rest[j], idx + 1 + j) != Some(d)
      {
        assert rest[j] == entries[j + 1];
      }
      LastEntryWins(rest, idx + 1, next, parse, d, k - 1);
    }
  }

  /** A text that is one good entry sets that entry's day alone. */
  lemma OneGoodEntry(e: string, dw: DayWeight)
    requires ',' !in e && ParseEntry(e, 0) == Ok(dw)
    ensures ParseSpec(e) == Parsed(Unweighted[dw.day := dw.weight], None)
  {
    SplitFirst(e, ',');
    AssignSingle(e, 0, Unweighted, ParseEntry, dw);
  }

  lemma AssignSingle(e: string, idx: nat, weights: seq<int>, parse: EntryReader, dw: DayWeight)
    requires |weights| == 7 && parse(e, idx) == Ok(dw)
    ensures Assign([e], idx, weights, parse) == Parsed(weights[dw.day := dw.weight], None)
  {
    assert [e][1..] == [];
  }

  /** A text whose first entry is bad fails with that entry's error. */
  lemma FirstEntryBad(str: string, err: ParseError)
    requires ParseEntry(Upto(str, ','), 0) == Err(err)
    ensures ParseSpec(str).err == Some(err)
  {
    SplitFirst(str, ',');
  }

  /** The text before the first `c` of `a + b`, when `a` has no `c` and `b` is empty or starts with one. */
  lemma {:induction false} UptoConcat(a: string, b: string, c: char)
    requires c !in a && (b == [] || b[0] == c)
    ensures Upto(a + b, c) == a
  {
    if a == [] {
      assert a + b == b;
    } else {
      assert (a + b)[1..] == a[1..] + b;
      UptoConcat(a[1..], b, c);
    }
  }

  /** The two pieces of `a + "=" + b` when neither side has a `=`. */
  lemma SplitPair(a: string, b: string)
    requires '=' !in a && '=' !in b
    ensures Split(a + "=" + b, '=') == [a, b]
  {
    var t := a + "=" + b;
    assert t == a + ("=" + b);
    UptoConcat(a, "=" + b, '=');
    assert t[|a|] == '=';
    SplitFirst(t, '=');
    assert t[|a| + 1..] == b;
    SplitFirst(b, '=');
  }

  /** A text with a single good entry sets that day alone. */
  lemma ParseSingleEntry()
    ensures ParseSpec("Mon=1") == Parsed([0, 1, 0, 0, 0, 0, 0], None)
  {
    MonOneSetsMonday();
    MondayOnly();
  }

  lemma MonOneSetsMonday()
    ensures ParseSpec("Mon=1") == Parsed(Unweighted[1 := 1], None)
  {
    EntryMonOne();
    assert ',' !in "Mon=1";
    OneGoodEntry("Mon=1", DayWeight(1, 1));
  }

  lemma MondayOnly()
    ensures Unweighted[1 := 1] == [0, 1, 0, 0, 0, 0, 0]
  {
  }

  lemma EntryMonOne()
    ensures ParseEntry("Mon=1", 0) == Ok(DayWeight(1, 1))
  {
    TupleMonOne();
    AtoiOne();
  }

  lemma TupleMonOne()
    ensures ParseTuple("Mon=1") == ("mon", "1")
  {
    assert "Mon=1" == "Mon" + "=" + "1";
    TupleOf("Mon", "1");
    NameMon();
    TrimNothing("1");
  }

  /** The tuple of a text with exactly one `=`. */
  lemma TupleOf(a: string, b: string)
    requires '=' !in a && '=' !in b
    ensures ParseTuple(a + "=" + b) == (ToLower(TrimSpace(a)), TrimSpace(b))
  {
    SplitPair(a, b);
  }

  lemma NameMon()
    ensures ToLower(TrimSpace("Mon")) == "mon"
  {
    TrimNothing("Mon");
    LowerMon();
  }

  lemma AtoiOne()
    ensures Atoi("1") == Some(1)
  {
    assert DigitsValue("1") == 1;
  }

  lemma TrimNothing(s: string)
    requires forall k :: 0 <= k < |s| ==> !IsSpace(s[k])
    ensures TrimSpace(s) == s
  {
    if s != [] {
      assert !IsSpace(s[0]) && !IsSpace(s[|s| - 1]);
      assert s[0..] == s;
    }
  }

  /**
   * Go lowers U+0130 to `i`, so "FR\U{0130}=1" names Friday: the day names are
   * matched after strings.ToLower, not before.
   */
  lemma ParseDottedCapitalI()
    ensures ParseSpec("FR\U{0130}=1") == Parsed([0, 0, 0, 0, 0, 1, 0], None)
  {
    FriOneSetsFriday();
    FridayOnly();
  }

  lemma FriOneSetsFriday()
    ensures ParseSpec("FR\U{0130}=1") == Parsed(Unweighted[5 := 1], None)
  {
    EntryFriOne();
    assert ',' !in "FR\U{0130}=1";
    OneGoodEntry("FR\U{0130}=1", DayWeight(5, 1));
  }

  lemma FridayOnly()
    ensures Unweighted[5 := 1] == [0, 0, 0, 0, 0, 1, 0]
  {
  }

  lemma EntryFriOne()
    ensures ParseEntry("FR\U{0130}=1", 0) == Ok(DayWeight(5, 1))
  {
    TupleFriOne();
    AtoiOne();
  }

  lemma TupleFriOne()
    ensures ParseTuple("FR\U{0130}=1") == ("fri", "1")
  {
    assert "FR\U{0130}=1" == "FR\U{0130}" + "=" + "1";
    TupleOf("FR\U{0130}", "1");
    NameFri();
    TrimNothing("1");
  }

  lemma NameFri()
    ensures ToLower(TrimSpace("FR\U{0130}")) == "fri"
  {
    TrimNothing("FR\U{0130}");
    LowerFri();
  }

  lemma LowerFri()
    ensures ToLower("FR\U{0130}") == "fri"
  {
    assert ToLower("\U{0130}") == "i";
    assert ToLower("R\U{0130}") == "ri";
  }

  lemma LowerMon()
    ensures ToLower("Mon") == "mon"
  {
    assert ('M' as int + 32) as char == 'm';
    assert ToLower("n") == "n";
    assert ToLower("on") == "on";
  }

  /** A text without `=` is rejected for its missing day name. */
  lemma ParseRejectsBareWord()
    ensures ParseSpec("Toto").err == Some(MissingDayName(0))
  {
    SplitFirst("Toto", ',');
    SplitFirst("Toto", '=');
    assert ParseEntry("Toto", 0) == Err(MissingDayName(0));
  }

  /** An entry with an empty weight is rejected. */
  lemma ParseRejectsEmptyWeight()
    ensures ParseSpec("Mon=, Sun=2").err == Some(InvalidWeight("", 0))
  {
    assert "Mon=, Sun=2" == "Mon=" + ", Sun=2";
    UptoConcat("Mon=", ", Sun=2", ',');
    EntryMonEmpty();
    FirstEntryBad("Mon=, Sun=2", InvalidWeight("", 0));
  }

  lemma EntryMonEmpty()
    ensures ParseEntry("Mon=", 0) == Err(InvalidWeight("", 0))
  {
    TupleMonEmpty();
    assert DayIndex("mon") == Some(1);
    assert Atoi("") == None;
  }

  lemma TupleMonEmpty()
    ensures ParseTuple("Mon=") == ("mon", "")
  {
    assert "Mon=" == "Mon" + "=" + "";
    TupleOf("Mon", "");
    NameMon();
    TrimNothing("");
  }

  /** An entry with an empty day name is rejected. */
  lemma ParseRejectsEmptyName()
    ensures ParseSpec("=2, Sun=2").err == Some(MissingDayName(0))
  {
    assert "=2, Sun=2" == "=2" + ", Sun=2";
    UptoConcat("=2", ", Sun=2", ',');
    EntryEmptyName();
    FirstEntryBad("=2, Sun=2", MissingDayName(0));
  }

  lemma EntryEmptyName()
    ensures ParseEntry("=2", 0) == Err(MissingDayName(0))
  {
    assert "=2" == "" + "=" + "2";
    TupleOf("", "2");
    TrimNothing("");
  }

  // --- strategies -------------------------------------------------------------------------

  /** How a weekday is assigned: uniformly at random, or by weights. */
  datatype WeekDayStrategy = WeekDayStrategy(useWeight: bool, weights: Weight)

  method CreateWeekdayWeightedStrategy(weights: seq<int>) returns (s: WeekDayStrategy)
    ensures s.useWeight && BuiltFrom(s.weights, weights)
  {
    var w := CreateWeight(weights);
    s := WeekDayStrategy(true, w);
  }

  /** The uniform strategy, with the empty weight structure. */
  function CreateWeekdayDefaultStrategy(): (s: WeekDayStrategy)
    ensures !s.useWeight && BuiltFrom(s.weights, [])
  {
    WeekDayStrategy(false, Weight(0, []))
  }
}
