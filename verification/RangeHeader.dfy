/** The Range request header (parseRange, proxy/transport/client.go). Headers are byte strings. */
module RangeHeader {
  import opened GoTypes

  datatype RangeError = MultipleRanges | InvalidFormat | BadNumber | FromOverMax | ToOverMax | FromAfterTo

  datatype ByteRange = ByteRange(hasRange: bool, from: nat, to: nat)

  const PREFIX: string := "bytes="

  predicate IsDigit(c: char) {
    '0' <= c <= '9'
  }

  predicate AllDigits(s: string) {
    forall i :: 0 <= i < |s| ==> IsDigit(s[i])
  }

  function DecimalValue(s: string): nat
    requires AllDigits(s)
  {
    if s == [] then 0 else 10 * DecimalValue(s[..|s| - 1]) + (s[|s| - 1] - '0') as nat
  }

  /** strconv.ParseUint(s, 10, 64): digits only, at least one, and the value fits uint64. */
  function ParseUint(s: string): Option<nat> {
    if s == [] || !AllDigits(s) || DecimalValue(s) >= TWO_64 then None else Some(DecimalValue(s))
  }

  function FormatUint(n: nat): string {
    (if n < 10 then [] else FormatUint(n / 10)) + ['0' + (n % 10) as char]
  }

  /** Where c first occurs in s, or |s| when it does not. */
  function IndexOf(s: string, c: char): (k: nat)
    ensures k <= |s| && c !in s[..k]
    ensures k < |s| ==> s[k] == c
  {
    if s == [] || s[0] == c then 0 else
      var k := IndexOf(s[1..], c) + 1;
      assert s[..k] == [s[0]] + s[1..][..k - 1];
      k
  }

  /** strings.SplitN(s, sep, 2) */
  function SplitTwo(s: string, sep: char): seq<string> {
    var k := IndexOf(s, sep);
    if k == |s| then [s] else [s[..k], s[k + 1..]]
  }

  function ParseRange(header: string, max: nat): Result<ByteRange, RangeError> {
    if |header| > 6 && PREFIX <= header then ParseSpec(header[6..], max) else Ok(ByteRange(false, 0, max))
  }

  /** What follows the unit: one range of two bounds, either of which may be empty. */
  function ParseSpec(spec: string, max: nat): Result<ByteRange, RangeError> {
    var ranges := SplitTwo(spec, ',');
    if |ranges| > 1 then Err(MultipleRanges)
    else
      var ends := SplitTwo(ranges[0], '-');
      if |ends| != 2 then Err(InvalidFormat) else ParseBounds(ends[0], ends[1], max)
  }

  function ParseBounds(first: string, last: string, max: nat): Result<ByteRange, RangeError> {
    var from := if first == "" then Some(0) else ParseUint(first);
    if from == None then Err(BadNumber)
    else if from.value > max then Err(FromOverMax)
    else
      var to := if last == "" then Some(max) else ParseUint(last);
      if to == None then Err(BadNumber)
      else if to.value > max then Err(ToOverMax)
      else if from.value > to.value then Err(FromAfterTo)
      else Ok(ByteRange(true, from.value, to.value))
  }

  /** The header is "bytes=first-last", each bound digits or nothing, and it names from..to. */
  predicate Names(header: string, first: string, last: string, from: nat, to: nat, max: nat) {
    && header == "bytes=" + (first + "-" + last)
    && AllDigits(first) && AllDigits(last)
    && from == DecimalValue(first)
    && to == (if last == "" then max else DecimalValue(last))
    && from <= to <= max
  }

  ghost predicate Named(header: string, from: nat, to: nat, max: nat) {
    exists first, last :: Names(header, first, last, from, to, max)
  }

  ghost predicate NamesNone(header: string, max: nat) {
    forall from: nat, to: nat {:trigger Named(header, from, to, max)} :: !Named(header, from, to, max)
  }

  /** The header asks for a range of bytes, in whatever way. */
  predicate AsksForRange(header: string) {
    |header| > 6 && header[..6] == "bytes="
  }

  lemma {:induction false} IndexOfFirst(s: string, c: char, k: nat)
    requires k <= |s| && c !in s[..k] && (k < |s| ==> s[k] == c)
    ensures IndexOf(s, c) == k
  {
    if k > 0 {
      assert s[0] in s[..k];
      assert s[..k][1..] == s[1..][..k - 1];
      IndexOfFirst(s[1..], c, k - 1);
    }
  }

  lemma DigitsAreNot(s: string, c: char)
    requires AllDigits(s) && !IsDigit(c)
    ensures c !in s
  {
  }

  lemma SpecSplits(first: string, last: string)
    requires AllDigits(first) && AllDigits(last)
    ensures var spec := first + ['-'] + last; SplitTwo(spec, ',') == [spec] && SplitTwo(spec, '-') == [first, last]
  {
    var spec := first + ['-'] + last;
    DigitsAreNot(first, ',');
    DigitsAreNot(last, ',');
    DigitsAreNot(first, '-');
    assert spec[..|spec|] == spec;
    IndexOfFirst(spec, ',', |spec|);
    assert spec[..|first|] == first && spec[|first| + 1..] == last;
    IndexOfFirst(spec, '-', |first|);
  }

  lemma NamedIsParsed(header: string, first: string, last: string, from: nat, to: nat, max: nat)
    requires max < TWO_64 && Names(header, first, last, from, to, max)
    ensures ParseRange(header, max) == Ok(ByteRange(true, from, to))
  {
    assert header[..6] == PREFIX && header[6..] == first + ['-'] + last;
    SpecParsed(first, last, from, to, max);
  }

  lemma SpecParsed(first: string, last: string, from: nat, to: nat, max: nat)
    requires max < TWO_64 && AllDigits(first) && AllDigits(last) && from <= to <= max
    requires from == DecimalValue(first) && to == (if last == "" then max else DecimalValue(last))
    ensures ParseSpec(first + ['-'] + last, max) == Ok(ByteRange(true, from, to))
  {
    SpecSplits(first, last);
    BoundsParsed(first, last, from, to, max);
  }

  lemma BoundsParsed(first: string, last: string, from: nat, to: nat, max: nat)
    requires max < TWO_64 && AllDigits(first) && AllDigits(last) && from <= to <= max
    requires from == DecimalValue(first) && to == (if last == "" then max else DecimalValue(last))
    ensures ParseBounds(first, last, max) == Ok(ByteRange(true, from, to))
  {
  }

  lemma SpecJoins(spec: string, max: nat)
    requires ParseSpec(spec, max).Ok?
    ensures SplitTwo(spec, ',') == [spec] && |SplitTwo(spec, '-')| == 2
    ensures spec == SplitTwo(spec, '-')[0] + ['-'] + SplitTwo(spec, '-')[1]
  {
  }

  lemma ParsedIsNamed(header: string, from: nat, to: nat, max: nat) returns (first: string, last: string)
    requires ParseRange(header, max) == Ok(ByteRange(true, from, to))
    ensures Names(header, first, last, from, to, max)
  {
    var spec := header[6..];
    assert header[..6] == PREFIX && header == header[..6] + spec;
    SpecJoins(spec, max);
    first, last := SplitTwo(spec, '-')[0], SplitTwo(spec, '-')[1];
  }

  /** A Range header is accepted exactly when it names a range inside 0..max, and as that range. */
  lemma AcceptedIffNamed(header: string, from: nat, to: nat, max: nat)
    requires max < TWO_64
    ensures ParseRange(header, max) == Ok(ByteRange(true, from, to))
            <==> Named(header, from, to, max)
  {
    if ParseRange(header, max) == Ok(ByteRange(true, from, to)) {
      var first, last := ParsedIsNamed(header, from, to, max);
    }
    forall first, last | Names(header, first, last, from, to, max)
      ensures ParseRange(header, max) == Ok(ByteRange(true, from, to))
    {
      NamedIsParsed(header, first, last, from, to, max);
    }
  }

  /** All of the file is what a request gets that does not ask for a range, and no other; one that does is refused
      exactly when it names none. */
  lemma AcceptedOrRefused(header: string, max: nat)
    requires max < TWO_64
    ensures ParseRange(header, max) == Ok(ByteRange(false, 0, max)) <==> !AsksForRange(header)
    ensures ParseRange(header, max).Err? <==> AsksForRange(header) && NamesNone(header, max)
  {
    assert PREFIX <= header <==> |header| >= 6 && header[..6] == "bytes=";
    forall from: nat, to: nat
      ensures ParseRange(header, max) == Ok(ByteRange(true, from, to)) <==> Named(header, from, to, max)
    {
      AcceptedIffNamed(header, from, to, max);
    }
    if ParseRange(header, max).Ok? && AsksForRange(header) {
      var r := ParseRange(header, max).value;
      assert Named(header, r.from, r.to, max);
    }
  }

  /** The range a request is for: the one its header names, or everything when it asks for none. */
  ghost predicate IsFor(header: string, max: nat, range: ByteRange) {
    if range.hasRange then Named(header, range.from, range.to, max)
    else !AsksForRange(header) && range == ByteRange(false, 0, max)
  }

  lemma ParsedIffFor(header: string, max: nat, range: ByteRange)
    requires max < TWO_64
    ensures ParseRange(header, max) == Ok(range) <==> IsFor(header, max, range)
  {
    AcceptedOrRefused(header, max);
    if range.hasRange { AcceptedIffNamed(header, range.from, range.to, max); }
  }

  /** A header byte by byte. */
  lemma HundredAndMore(header: string, max: nat)
    requires header == "bytes=10-209" && 209 <= max < TWO_64
    ensures ParseRange(header, max) == Ok(ByteRange(true, 10, 209))
  {
    assert DecimalValue("10") == 10 && DecimalValue("209") == 209;
    NamedIsParsed(header, "10", "209", 10, 209, max);
  }

  /** Every success lies inside 0..max; without a Range header it is all of it. */
  lemma SuccessInBounds(header: string, max: nat)
    requires max < TWO_64 && ParseRange(header, max).Ok?
    ensures var r := ParseRange(header, max).value;
            r.from <= r.to <= max && (!r.hasRange ==> r.from == 0 && r.to == max)
  {
  }

  lemma {:induction false} FormatParses(n: nat)
    ensures FormatUint(n) != [] && AllDigits(FormatUint(n)) && DecimalValue(FormatUint(n)) == n
  {
    var s := FormatUint(n);
    if n >= 10 {
      FormatParses(n / 10);
      assert s[..|s| - 1] == FormatUint(n / 10);
    } else {
      assert s[..|s| - 1] == [];
    }
  }

  /** Printing a range and parsing it gives it back. */
  lemma PrintedRangeParses(from: nat, to: nat, max: nat)
    requires from <= to <= max < TWO_64
    ensures ParseRange(PREFIX + (FormatUint(from) + ['-'] + FormatUint(to)), max) == Ok(ByteRange(true, from, to))
  {
    FormatParses(from);
    FormatParses(to);
    var first, last := FormatUint(from), FormatUint(to);
    NamedIsParsed(PREFIX + (first + ['-'] + last), first, last, from, to, max);
  }
}
