/** The JavaScript string operations the bumpers rely on, over `seq<char>`:
    `toLowerCase` (ASCII letters), `includes`, `indexOf`, `split` with a
    non-empty separator, and `Number` applied to a string of decimal digits. */
module Text {
  import opened Wrappers

  /** Lower-cases an ASCII capital letter; every other character is kept. */
  function LowerChar(c: char): char {
    if 'A' <= c <= 'Z' then (c as int - 'A' as int + 'a' as int) as char else c
  }

  /** `s.toLowerCase()` */
  function ToLower(s: string): string {
    seq(|s|, i requires 0 <= i < |s| => LowerChar(s[i]))
  }

  /** `pat` occurs in `s` starting at index `i`. */
  predicate OccursAt(s: string, pat: string, i: nat) {
    i + |pat| <= |s| && s[i..i + |pat|] == pat
  }

  /** `s.includes(pat)` */
  predicate Contains(s: string, pat: string) {
    exists i :: 0 <= i <= |s| - |pat| && OccursAt(s, pat, i)
  }

  /** The first occurrence of `pat` in `s` at or after `from`. */
  function IndexFrom(s: string, pat: string, from: nat): (r: Option<nat>)
    requires from <= |s|
    ensures r.Some? ==> from <= r.value && OccursAt(s, pat, r.value)
    ensures r.Some? ==> forall k :: from <= k < r.value ==> !OccursAt(s, pat, k)
    ensures r.None? ==> forall k :: from <= k ==> !OccursAt(s, pat, k)
    decreases |s| - from
  {
    if OccursAt(s, pat, from) then Some(from)
    else if from == |s| then None
    else IndexFrom(s, pat, from + 1)
  }

  /** `s.indexOf(pat)`, with -1 as None: the first occurrence, and None exactly when there is none. */
  function IndexOf(s: string, pat: string): (r: Option<nat>)
    ensures r.Some? ==> OccursAt(s, pat, r.value) && forall k :: 0 <= k < r.value ==> !OccursAt(s, pat, k)
    ensures r.None? <==> !Contains(s, pat)
  {
    IndexFrom(s, pat, 0)
  }

  /** A prefix of `s` that ends before the first occurrence of `pat` does not contain `pat`. */
  lemma NoOccurrenceBeforeFirst(s: string, pat: string, i: nat)
    requires |pat| > 0 && i <= |s|
    requires forall k :: 0 <= k < i ==> !OccursAt(s, pat, k)
    ensures !Contains(s[..i], pat)
  {
    forall k | 0 <= k <= i - |pat| && OccursAt(s[..i], pat, k)
      ensures false
    {
      assert s[..i][k..k + |pat|] == s[k..k + |pat|];
      assert OccursAt(s, pat, k);
    }
  }

  /** `s.split(sep)` for a non-empty separator: the pieces between successive occurrences. */
  function Split(s: string, sep: string): (parts: seq<string>)
    requires |sep| > 0
    ensures |parts| >= 1
    ensures forall i :: 0 <= i < |parts| ==> !Contains(parts[i], sep)
    decreases |s|
  {
    match IndexOf(s, sep)
    case None => [s]
    case Some(i) =>
      NoOccurrenceBeforeFirst(s, sep, i);
      [s[..i]] + Split(s[i + |sep|..], sep)
  }

  /** `parts.join(sep)` */
  function Join(parts: seq<string>, sep: string): string
    decreases |parts|
  {
    if parts == [] then ""
    else if |parts| == 1 then parts[0]
    else parts[0] + sep + Join(parts[1..], sep)
  }

  /** Splitting loses nothing: joining the pieces back with the separator gives the string. */
  lemma {:induction false} JoinSplit(s: string, sep: string)
    requires |sep| > 0
    ensures Join(Split(s, sep), sep) == s
    decreases |s|
  {
    var r := IndexOf(s, sep);
    if r.Some? {
      var i := r.value;
      var rest := s[i + |sep|..];
      var tail := Split(rest, sep);
      assert Split(s, sep) == [s[..i]] + tail;
      JoinSplit(rest, sep);
      assert ([s[..i]] + tail)[1..] == tail;
      assert Join([s[..i]] + tail, sep) == s[..i] + sep + rest;
      assert s == s[..i] + s[i..i + |sep|] + rest;
    }
  }

  /** If the first occurrence of `sep` in `s` is at `i`, splitting takes the piece before it off the front. */
  lemma SplitAtFirst(s: string, sep: string, i: nat)
    requires |sep| > 0
    requires OccursAt(s, sep, i) && forall k :: 0 <= k < i ==> !OccursAt(s, sep, k)
    ensures Split(s, sep) == [s[..i]] + Split(s[i + |sep|..], sep)
  {
  }

  /** A string without the separator splits into itself alone. */
  lemma SplitWithoutSeparator(s: string, sep: string)
    requires |sep| > 0 && !Contains(s, sep)
    ensures Split(s, sep) == [s]
  {
  }

  /** When `sep` does not occur in `prefix` nor straddle its end, splitting
      `prefix + sep + tail` takes `prefix` off the front and splits the tail. */
  lemma SplitAfterPrefix(prefix: string, sep: string, tail: string)
    requires |sep| > 0 && !Contains(prefix + sep[..|sep| - 1], sep)
    ensures Split(prefix + sep + tail, sep) == [prefix] + Split(tail, sep)
  {
    var h := prefix + sep + tail;
    var q := prefix + sep[..|sep| - 1];
    assert h[|prefix|..|prefix| + |sep|] == sep;
    assert q == h[..|q|];
    forall k | 0 <= k < |prefix| ensures !OccursAt(h, sep, k) {
      assert !OccursAt(q, sep, k);
      assert k + |sep| <= |q|;
      assert h[..|q|][k..k + |sep|] == h[k..k + |sep|];
    }
    SplitAtFirst(h, sep, |prefix|);
    assert h[|prefix| + |sep|..] == tail;
    assert h[..|prefix|] == prefix;
  }

  predicate IsDigit(c: char) {
    '0' <= c <= '9'
  }

  function DigitValue(c: char): nat
    requires IsDigit(c)
  {
    c as int - '0' as int
  }

  function DigitChar(d: nat): char
    requires d < 10
  {
    ('0' as int + d) as char
  }

  /** `Number(s)` on a string of ASCII decimal digits (the empty string is 0); None stands
      for NaN and is the result exactly when some character is not a digit. */
  function DecimalNumber(s: string): (r: Option<nat>)
    ensures r.Some? <==> forall i :: 0 <= i < |s| ==> IsDigit(s[i])
    decreases |s|
  {
    if s == [] then Some(0)
    else
      var init := s[..|s| - 1];
      match DecimalNumber(init)
      case None => None
      case Some(v) =>
        if IsDigit(s[|s| - 1]) then Some(10 * v + DigitValue(s[|s| - 1])) else None
  }

  /** The decimal digits of `n`, most significant first, with no leading zero. */
  function DecimalText(n: nat): (s: string)
    ensures |s| >= 1
    decreases n
  {
    if n < 10 then [DigitChar(n)] else DecimalText(n / 10) + [DigitChar(n % 10)]
  }

  /** Reading back the digits of `n` gives `n`. */
  lemma {:induction false} DecimalRoundTrip(n: nat)
    ensures DecimalNumber(DecimalText(n)) == Some(n)
    decreases n
  {
    var s := DecimalText(n);
    if n < 10 {
      assert s[..|s| - 1] == [];
    } else {
      DecimalRoundTrip(n / 10);
      assert s[..|s| - 1] == DecimalText(n / 10);
    }
  }

  /** Lower-casing maps an occurrence of `pat` to an occurrence of its lower-cased form. */
  lemma ContainsToLower(s: string, pat: string)
    requires Contains(s, pat)
    ensures Contains(ToLower(s), ToLower(pat))
  {
    var i :| 0 <= i <= |s| - |pat| && OccursAt(s, pat, i);
    assert ToLower(s)[i..i + |pat|] == ToLower(pat);
    assert OccursAt(ToLower(s), ToLower(pat), i);
  }
}
