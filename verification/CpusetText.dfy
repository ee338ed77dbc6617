/**
  The text of a cpuset file: how a thread list is printed, how the text is parsed back, and the form in which
  the kernel shows it again (the list format of cpuset(7): sorted, consecutive ids as `first-last`).
 */
module CpusetText {
  import opened Collections

  // ---- decimal numbers ----

  predicate IsDigit(c: char) { '0' <= c <= '9' }

  function DigitChar(d: nat): (c: char)
    requires d < 10
    ensures IsDigit(c)
  {
    ('0' as int + d) as char
  }

  function DigitValue(c: char): (d: nat)
    requires IsDigit(c)
    ensures d < 10
  {
    c as int - '0' as int
  }

  /** `str(n)`. */
  function PrintNat(n: nat): (s: string)
    ensures s != "" && forall i :: 0 <= i < |s| ==> IsDigit(s[i])
  {
    if n < 10 then [DigitChar(n)] else PrintNat(n / 10) + [DigitChar(n % 10)]
  }

  function Value(s: string): nat
    requires forall i :: 0 <= i < |s| ==> IsDigit(s[i])
  {
    if s == "" then 0 else Value(s[..|s| - 1]) * 10 + DigitValue(s[|s| - 1])
  }

  /** `int(s)` on digits; anything else raises. */
  function ParseNat(s: string): Option<nat> {
    if s != "" && forall i :: 0 <= i < |s| ==> IsDigit(s[i]) then Some(Value(s)) else None
  }

  lemma {:induction false} ParsePrinted(n: nat)
    ensures ParseNat(PrintNat(n)) == Some(n)
  {
    if n < 10 {
      assert PrintNat(n) == [DigitChar(n)];
      assert Value(PrintNat(n)) == Value("") * 10 + n;
    } else {
      ParsePrinted(n / 10);
      var s := PrintNat(n);
      assert s[..|s| - 1] == PrintNat(n / 10);
    }
  }

  lemma PrintInjective(m: nat, n: nat)
    requires PrintNat(m) == PrintNat(n)
    ensures m == n
  {
    ParsePrinted(m);
    ParsePrinted(n);
  }

  function Pow10(k: nat): nat { if k == 0 then 1 else 10 * Pow10(k - 1) }

  /** The decimal value of a text, read from the left. */
  function Weighed(s: string): int {
    if s == "" then 0 else (s[0] as int - '0' as int) * Pow10(|s| - 1) + Weighed(s[1..])
  }

  lemma {:induction false} WeighedSnoc(s: string, c: char)
    ensures Weighed(s + [c]) == Weighed(s) * 10 + (c as int - '0' as int)
  {
    if s != "" {
      WeighedSnoc(s[1..], c);
      assert (s + [c])[1..] == s[1..] + [c];
      MulOut(s[0] as int - '0' as int, Pow10(|s| - 1));
    } else {
      assert (s + [c])[1..] == "" && Pow10(0) == 1;
    }
  }

  lemma MulOut(a: int, b: int)
    ensures a * (10 * b) == (a * b) * 10
  {
  }

  lemma {:induction false} ValueWeighed(s: string)
    requires forall i :: 0 <= i < |s| ==> IsDigit(s[i])
    ensures Value(s) == Weighed(s)
    decreases |s|
  {
    if s != "" {
      var n := |s| - 1;
      assert s == s[..n] + [s[n]];
      WeighedSnoc(s[..n], s[n]);
      ValueWeighed(s[..n]);
    }
  }

  /** Exactly the texts of one or more decimal digits are numbers, and they weigh what they are parsed to. */
  lemma ParsesDecimal(s: string)
    ensures ParseNat(s).Some? <==> s != "" && forall i :: 0 <= i < |s| ==> '0' <= s[i] <= '9'
    ensures ParseNat(s).Some? ==> ParseNat(s).value == Weighed(s)
  {
    if ParseNat(s).Some? { ValueWeighed(s); }
  }

  /** No leading zero is printed. */
  lemma {:induction false} NoLeadingZero(n: nat)
    ensures PrintNat(n)[0] == '0' <==> n == 0
  {
    if n >= 10 { NoLeadingZero(n / 10); }
  }

  // ---- splitting and joining ----

  /** `s.split(sep)`. */
  function Split(s: string, sep: char): (parts: seq<string>)
    ensures |parts| > 0
  {
    if s == "" then [""] else
      var rest := Split(s[1..], sep);
      if s[0] == sep then [""] + rest else [[s[0]] + rest[0]] + rest[1..]
  }

  /** `sep.join(parts)`. */
  function Join(parts: seq<string>, sep: char): string {
    if parts == [] then "" else
    if |parts| == 1 then parts[0] else parts[0] + [sep] + Join(parts[1..], sep)
  }

  lemma {:induction false} SplitNone(a: string, sep: char)
    requires sep !in a
    ensures Split(a, sep) == [a]
  {
    if a != "" {
      SplitNone(a[1..], sep);
      assert a == [a[0]] + a[1..];
    }
  }

  lemma SplitHead(c: char, rest: string, sep: char)
    ensures Split([], sep) == [""]
    ensures Split([c] + rest, sep) ==
              if c == sep then [""] + Split(rest, sep)
              else [[c] + Split(rest, sep)[0]] + Split(rest, sep)[1..]
  {
    assert ([c] + rest)[1..] == rest;
  }

  lemma {:induction false} SplitAt(a: string, sep: char, b: string)
    ensures Split(a + [sep] + b, sep) == Split(a, sep) + Split(b, sep)
  {
    hide Split;
    if a == "" {
      SplitHead(sep, b, sep);
      assert a + [sep] + b == [sep] + b;
    } else {
      SplitAt(a[1..], sep, b);
      SplitHead(a[0], a[1..], sep);
      SplitHead(a[0], a[1..] + [sep] + b, sep);
      assert a == [a[0]] + a[1..] && a + [sep] + b == [a[0]] + (a[1..] + [sep] + b);
    }
  }

  lemma SplitFirst(a: string, sep: char, rest: string)
    requires sep !in a
    ensures Split(a + [sep] + rest, sep) == [a] + Split(rest, sep)
  {
    SplitNone(a, sep);
    SplitAt(a, sep, rest);
  }

  lemma {:induction false} SplitJoined(parts: seq<string>, sep: char)
    requires parts != [] && forall i :: 0 <= i < |parts| ==> sep !in parts[i]
    ensures Split(Join(parts, sep), sep) == parts
    decreases |parts|
  {
    if |parts| == 1 {
      SplitNone(parts[0], sep);
    } else {
      SplitFirst(parts[0], sep, Join(parts[1..], sep));
      SplitJoined(parts[1..], sep);
    }
  }

  // ---- the file ----

  /** `range(first, last + 1)`. */
  function Range(first: nat, last: nat): seq<nat>
    decreases last - first
  {
    if first > last then [] else
    if first == last then [last] else Range(first, last - 1) + [last]
  }

  /** One comma-separated entry: the first and the last piece between dashes are the bounds. */
  function ParseEntry(x: string): Result<seq<nat>> {
    var r := Split(x, '-');
    match (ParseNat(r[0]), ParseNat(r[|r| - 1]))
    case (Some(first), Some(last)) => Success(Range(first, last))
    case _ => Failure
  }

  function ParseEntries(xs: seq<string>): Result<seq<nat>> {
    if xs == [] then Success([]) else
      match (ParseEntry(xs[0]), ParseEntries(xs[1..]))
      case (Success(here), Success(rest)) => Success(here + rest)
      case _ => Failure
  }

  /** `parse_cpuset`. */
  function ParseCpuset(s: string): Result<seq<nat>> { ParseEntries(Split(s, ',')) }

  /** A run of consecutive ids. */
  datatype Span = Span(first: nat, last: nat)

  function PrintSpan(x: Span): string {
    if x.first == x.last then PrintNat(x.first) else PrintNat(x.first) + "-" + PrintNat(x.last)
  }

  function PrintedSpans(spans: seq<Span>): seq<string> {
    seq(|spans|, i requires 0 <= i < |spans| => PrintSpan(spans[i]))
  }

  function PrintSpans(spans: seq<Span>): string { Join(PrintedSpans(spans), ',') }

  function Expand(spans: seq<Span>): seq<nat> {
    if spans == [] then [] else Expand(spans[..|spans| - 1]) + Range(spans[|spans| - 1].first, spans[|spans| - 1].last)
  }

  /** `",".join([str(t) for t in ids])`. */
  function PrintList(ids: seq<nat>): string {
    Join(seq(|ids|, i requires 0 <= i < |ids| => PrintNat(ids[i])), ',')
  }

  lemma NotInDigits(s: string, c: char)
    requires (forall i :: 0 <= i < |s| ==> IsDigit(s[i])) && !IsDigit(c)
    ensures c !in s
  {
  }

  lemma ParseSpan(x: Span)
    ensures ',' !in PrintSpan(x) && ParseEntry(PrintSpan(x)) == Success(Range(x.first, x.last))
  {
    var a, b := PrintNat(x.first), PrintNat(x.last);
    ParsePrinted(x.first);
    ParsePrinted(x.last);
    NotInDigits(a, ',');
    NotInDigits(b, ',');
    NotInDigits(a, '-');
    NotInDigits(b, '-');
    SplitNone(a, '-');
    if x.first != x.last {
      SplitFirst(a, '-', b);
      SplitNone(b, '-');
      assert a + "-" + b == a + ['-'] + b;
    }
  }

  lemma {:induction false} ParseEntriesBoth(xs: seq<string>, ys: seq<string>)
    ensures var r := ParseEntries(xs + ys);
            && (r.Success? <==> ParseEntries(xs).Success? && ParseEntries(ys).Success?)
            && (r.Success? ==> r.value == ParseEntries(xs).value + ParseEntries(ys).value)
  {
    hide ParseEntry;
    if xs == [] {
      assert xs + ys == ys;
    } else {
      assert (xs + ys)[1..] == xs[1..] + ys;
      ParseEntriesBoth(xs[1..], ys);
    }
  }

  lemma ParseOne(x: Span)
    ensures ParseEntries([PrintSpan(x)]) == Success(Range(x.first, x.last))
  {
    ParseSpan(x);
    var one, ids := [PrintSpan(x)], Range(x.first, x.last);
    assert one[1..] == [] && ids + [] == ids;
  }

  lemma {:induction false} ParsePrintedSpans(spans: seq<Span>)
    ensures ParseEntries(PrintedSpans(spans)) == Success(Expand(spans))
    decreases |spans|
  {
    if spans != [] {
      var n := |spans| - 1;
      ParsePrintedSpans(spans[..n]);
      var one := [PrintSpan(spans[n])];
      ParseOne(spans[n]);
      hide ParseEntries, PrintSpan;
      ParseEntriesBoth(PrintedSpans(spans[..n]), one);
      assert PrintedSpans(spans) == PrintedSpans(spans[..n]) + one;
    }
  }

  /** Parsing a printed list of spans gives back exactly the ids they cover, in order. */
  lemma SpansRoundTrip(spans: seq<Span>)
    requires spans != []
    ensures ParseCpuset(PrintSpans(spans)) == Success(Expand(spans))
  {
    forall i | 0 <= i < |spans| ensures ',' !in PrintedSpans(spans)[i] {
      ParseSpan(spans[i]);
    }
    SplitJoined(PrintedSpans(spans), ',');
    ParsePrintedSpans(spans);
  }

  function Singles(ids: seq<nat>): seq<Span> { seq(|ids|, i requires 0 <= i < |ids| => Span(ids[i], ids[i])) }

  lemma {:induction false} ExpandSingles(ids: seq<nat>)
    ensures Expand(Singles(ids)) == ids
    decreases |ids|
  {
    if ids != [] {
      var n := |ids| - 1;
      assert Singles(ids)[..n] == Singles(ids[..n]);
      ExpandSingles(ids[..n]);
      assert ids == ids[..n] + [ids[n]];
    }
  }

  /** What the manager writes, it reads back; the empty list prints a text that does not parse. */
  lemma ListRoundTrip(ids: seq<nat>)
    ensures ParseCpuset(PrintList(ids)) == if ids == [] then Failure else Success(ids)
  {
    if ids != [] {
      assert seq(|ids|, i requires 0 <= i < |ids| => PrintNat(ids[i])) == PrintedSpans(Singles(ids));
      SpansRoundTrip(Singles(ids));
      ExpandSingles(ids);
    } else {
      assert PrintList(ids) == "" && Split("", ',') == [""] && ParseEntry("") == Failure;
    }
  }

  /** Every id is printed in decimal, with a comma between two. */
  lemma {:induction false} PrintedWithCommas(ids: seq<nat>, x: nat)
    ensures PrintList([x]) == PrintNat(x)
    ensures ids != [] ==> PrintList([x] + ids) == PrintNat(x) + "," + PrintList(ids)
  {
    hide PrintNat;
    var parts := seq(|ids|, i requires 0 <= i < |ids| => PrintNat(ids[i]));
    var more := [x] + ids;
    var parts' := seq(|more|, i requires 0 <= i < |more| => PrintNat(more[i]));
    assert parts'[1..] == parts;
  }

  /** Whatever the texts on its sides are, a comma separates what is parsed. */
  lemma {:induction false} ParseAtComma(a: string, b: string)
    ensures var r := ParseCpuset(a + "," + b);
            && (r.Success? <==> ParseCpuset(a).Success? && ParseCpuset(b).Success?)
            && (r.Success? ==> r.value == ParseCpuset(a).value + ParseCpuset(b).value)
  {
    hide ParseEntry;
    SplitAt(a, ',', b);
    assert a + "," + b == a + [','] + b;
    ParseEntriesBoth(Split(a, ','), Split(b, ','));
  }

  /** Without a comma, the numbers before the first dash and after the last bound the ids; without a dash, one id. */
  lemma {:induction false} ParseAtDash(a: string, mid: string, b: string)
    requires '-' !in a && '-' !in b && ',' !in a + mid + b
    ensures ParseCpuset(a) == Between(a, a)
    ensures ParseCpuset(a + "-" + b) == Between(a, b)
    ensures ParseCpuset(a + "-" + mid + "-" + b) == Between(a, b)
  {
    hide ParseNat, Range;
    SplitNone(a, '-');
    SplitNone(b, '-');
    SplitAt(a, '-', b);
    SplitAt(a, '-', mid + ['-'] + b);
    SplitAt(mid, '-', b);
    OneEntry(a);
    assert a + "-" + b == a + ['-'] + b;
    OneEntry(a + "-" + b);
    assert a + "-" + mid + "-" + b == a + ['-'] + (mid + ['-'] + b);
    OneEntry(a + "-" + mid + "-" + b);
  }

  function Between(a: string, b: string): Result<seq<nat>> {
    if ParseNat(a).Some? && ParseNat(b).Some? then Success(Range(ParseNat(a).value, ParseNat(b).value)) else Failure
  }

  lemma OneEntry(x: string)
    requires ',' !in x
    ensures ParseCpuset(x) == ParseEntry(x)
  {
    hide ParseEntry;
    SplitNone(x, ',');
    assert [x][1..] == [] && ParseEntries([]) == Success([]);
    if ParseEntry(x).Success? { assert ParseEntry(x).value + [] == ParseEntry(x).value; }
  }

  lemma {:induction false} RangeFacts(first: nat, last: nat)
    ensures |Range(first, last)| == Max(0, last + 1 - first)
    ensures forall i :: 0 <= i < |Range(first, last)| ==> Range(first, last)[i] == first + i
    decreases last - first
  {
    if first < last { RangeFacts(first, last - 1); }
  }

  // ---- the kernel's own form ----

  /** Consecutive ids gathered into spans. */
  function Compress(ids: seq<nat>): (spans: seq<Span>)
    ensures ids != [] ==> spans != []
  {
    if ids == [] then [] else
      var n := |ids| - 1;
      var spans := Compress(ids[..n]);
      var m := |spans| - 1;
      if spans != [] && spans[m].first <= spans[m].last && spans[m].last + 1 == ids[n]
      then spans[..m] + [Span(spans[m].first, ids[n])]
      else spans + [Span(ids[n], ids[n])]
  }

  lemma {:induction false} ExpandCompressed(ids: seq<nat>)
    ensures Expand(Compress(ids)) == ids
    decreases |ids|
  {
    if ids != [] {
      var n := |ids| - 1;
      var spans := Compress(ids[..n]);
      ExpandCompressed(ids[..n]);
      assert ids == ids[..n] + [ids[n]];
      var m := |spans| - 1;
      if spans != [] && spans[m].first <= spans[m].last && spans[m].last + 1 == ids[n] {
        ExpandLonger(spans, ids[n]);
      } else {
        ExpandSnoc(spans, Span(ids[n], ids[n]));
      }
    }
  }

  /** Each span goes up, and none could be joined with the next. */
  ghost predicate Maximal(spans: seq<Span>) {
    && (forall i :: 0 <= i < |spans| ==> spans[i].first <= spans[i].last)
    && forall i :: 0 < i < |spans| ==> spans[i].first != spans[i - 1].last + 1
  }

  /** The spans are as long as they can be. */
  lemma {:induction false} CompressMaximal(ids: seq<nat>)
    ensures Maximal(Compress(ids))
    decreases |ids|
  {
    if ids == [] {
      NoSpans();
    } else {
      var n := |ids| - 1;
      CompressMaximal(ids[..n]);
      OneMoreId(Compress(ids[..n]), ids[n]);
    }
  }

  lemma NoSpans()
    ensures Maximal([])
  {
  }

  lemma OneMoreId(spans: seq<Span>, id: nat)
    requires Maximal(spans)
    ensures var m := |spans| - 1;
            if spans != [] && spans[m].last + 1 == id then Maximal(spans[..m] + [Span(spans[m].first, id)])
            else Maximal(spans + [Span(id, id)])
  {
  }

  lemma ExpandSnoc(spans: seq<Span>, x: Span)
    ensures Expand(spans + [x]) == Expand(spans) + Range(x.first, x.last)
  {
    assert (spans + [x])[..|spans|] == spans;
  }

  lemma ExpandLonger(spans: seq<Span>, next: nat)
    requires spans != [] && var x := spans[|spans| - 1]; x.first <= x.last && x.last + 1 == next
    ensures var m := |spans| - 1;
            Expand(spans[..m] + [Span(spans[m].first, next)]) == Expand(spans) + [next]
  {
    var m := |spans| - 1;
    ExpandSnoc(spans[..m], Span(spans[m].first, next));
    assert Range(spans[m].first, next) == Range(spans[m].first, spans[m].last) + [next];
  }

  // ---- sorting ----

  function Insert(x: nat, s: seq<nat>): seq<nat> {
    if s == [] then [x] else if x <= s[0] then [x] + s else [s[0]] + Insert(x, s[1..])
  }

  /** `sorted(s)`. */
  function Sort(s: seq<nat>): seq<nat> {
    if s == [] then [] else Insert(s[0], Sort(s[1..]))
  }

  ghost predicate Ordered(s: seq<nat>) { forall i, j :: 0 <= i < j < |s| ==> s[i] <= s[j] }

  lemma {:induction false} InsertAdds(x: nat, s: seq<nat>)
    ensures multiset(Insert(x, s)) == multiset(s) + multiset{x}
  {
    if s != [] {
      assert s == [s[0]] + s[1..];
      if x > s[0] { InsertAdds(x, s[1..]); }
    }
  }

  lemma {:induction false} InsertAbove(x: nat, s: seq<nat>, low: nat)
    requires low <= x && forall i :: 0 <= i < |s| ==> low <= s[i]
    ensures forall i :: 0 <= i < |Insert(x, s)| ==> low <= Insert(x, s)[i]
  {
    if s != [] && x > s[0] { InsertAbove(x, s[1..], low); }
  }

  lemma {:induction false} InsertOrders(x: nat, s: seq<nat>)
    requires Ordered(s)
    ensures Ordered(Insert(x, s))
  {
    if s != [] && x > s[0] {
      InsertOrders(x, s[1..]);
      InsertAbove(x, s[1..], s[0]);
    }
  }

  lemma {:induction false} SortFacts(s: seq<nat>)
    ensures Ordered(Sort(s)) && multiset(Sort(s)) == multiset(s)
  {
    if s != [] {
      SortFacts(s[1..]);
      InsertOrders(s[0], Sort(s[1..]));
      InsertAdds(s[0], Sort(s[1..]));
      assert s == [s[0]] + s[1..];
    }
  }

  lemma {:induction false} OrderedUnique(a: seq<nat>, b: seq<nat>)
    requires Ordered(a) && Ordered(b) && multiset(a) == multiset(b)
    ensures a == b
    decreases |a|
  {
    assert |a| == |multiset(a)| == |multiset(b)| == |b|;
    if a != [] {
      SameLeast(a, b);
      TailMultiset(a);
      TailMultiset(b);
      OrderedUnique(a[1..], b[1..]);
      assert a == [a[0]] + a[1..] && b == [b[0]] + b[1..];
    }
  }

  /** Lists of the same ids in order start alike. */
  lemma SameLeast(a: seq<nat>, b: seq<nat>)
    requires a != [] && b != [] && Ordered(a) && Ordered(b) && multiset(a) == multiset(b)
    ensures a[0] == b[0]
  {
    assert a[0] in multiset(b) && b[0] in multiset(a);
  }

  lemma TailMultiset(a: seq<nat>)
    requires a != []
    ensures multiset(a[1..]) == multiset(a) - multiset{a[0]}
  {
    assert a == [a[0]] + a[1..];
  }

  /** Two lists sort alike exactly when they hold the same ids equally often. */
  lemma {:induction false} SortedAlike(a: seq<nat>, b: seq<nat>)
    ensures Sort(a) == Sort(b) <==> multiset(a) == multiset(b)
  {
    SortFacts(a);
    SortFacts(b);
    if multiset(a) == multiset(b) { OrderedUnique(Sort(a), Sort(b)); }
  }

  /** The text the kernel shows for a cpuset holding these ids. */
  function KernelText(ids: seq<nat>): string { PrintSpans(Compress(Sort(ids))) }

  /** Rewriting a file into the kernel's form does not change its sorted parse. */
  lemma KernelRoundTrip(ids: seq<nat>)
    requires ids != []
    ensures ParseCpuset(KernelText(ids)) == Success(Sort(ids))
    ensures Sort(Sort(ids)) == Sort(ids)
  {
    SortFacts(ids);
    assert |Sort(ids)| == |multiset(Sort(ids))| == |multiset(ids)| == |ids|;
    SpansRoundTrip(Compress(Sort(ids)));
    ExpandCompressed(Sort(ids));
    SortedAlike(Sort(ids), ids);
  }
}
