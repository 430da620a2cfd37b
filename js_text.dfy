/** The few JavaScript string operations the content script relies on:
    `trim`, `toLowerCase`, `split`, `Array.prototype.join`, `startsWith`
    and the UTF-16 code units that `charCodeAt` reads. */
module JsText {
  import opened Wrappers

  /** The characters `String.prototype.trim` removes: ECMAScript's
      WhiteSpace (tab, vertical tab, form feed, space, no-break space,
      zero-width no-break space and the other Zs characters) and
      LineTerminator (line feed, carriage return, U+2028, U+2029). */
  predicate IsJsSpace(c: char) {
    || c == '\t' || c == '\n' || c == '\U{B}' || c == '\U{C}' || c == '\r'
    || c == ' ' || c == '\U{A0}' || c == '\U{1680}'
    || ('\U{2000}' <= c <= '\U{200A}')
    || c == '\U{2028}' || c == '\U{2029}' || c == '\U{202F}' || c == '\U{205F}'
    || c == '\U{3000}' || c == '\U{FEFF}'
  }

  predicate AllSpace(s: string) {
    forall i :: 0 <= i < |s| ==> IsJsSpace(s[i])
  }

  /** Leading white space removed. */
  function TrimStart(s: string): string {
    if |s| > 0 && IsJsSpace(s[0]) then TrimStart(s[1..]) else s
  }

  /** Trailing white space removed. */
  function TrimEnd(s: string): string {
    if |s| > 0 && IsJsSpace(s[|s| - 1]) then TrimEnd(s[..|s| - 1]) else s
  }

  /** `String.prototype.trim`. */
  function Trim(s: string): string {
    TrimEnd(TrimStart(s))
  }

  /** `toLowerCase`, restricted to the ASCII letters A-Z. */
  function LowerChar(c: char): char {
    if 'A' <= c <= 'Z' then (c as int + 32) as char else c
  }

  function Lower(s: string): string {
    seq(|s|, i requires 0 <= i < |s| => LowerChar(s[i]))
  }

  /** `s.startsWith(p)`. */
  predicate StartsWith(s: string, p: string) {
    |p| <= |s| && s[..|p|] == p
  }

  predicate OccursAt(s: string, sep: string, j: int) {
    0 <= j && j + |sep| <= |s| && s[j..j + |sep|] == sep
  }

  predicate Contains(s: string, sep: string) {
    exists j :: 0 <= j <= |s| && OccursAt(s, sep, j)
  }

  /** The first occurrence of `sep` in `s` at or after position `k`. */
  function IndexFrom(s: string, sep: string, k: nat): (r: Option<nat>)
    requires |sep| > 0 && k <= |s|
    ensures r.Some? ==> k <= r.value && OccursAt(s, sep, r.value)
    ensures r.Some? ==> forall j :: k <= j < r.value ==> !OccursAt(s, sep, j)
    ensures r.None? ==> forall j :: k <= j ==> !OccursAt(s, sep, j)
    decreases |s| - k
  {
    if k + |sep| > |s| then None
    else if s[k..k + |sep|] == sep then Some(k)
    else IndexFrom(s, sep, k + 1)
  }

  /** `String.prototype.split(sep)` for a non-empty separator: the pieces
      between the non-overlapping occurrences found from left to right. */
  function Split(s: string, sep: string): (parts: seq<string>)
    requires |sep| > 0
    ensures |parts| >= 1
    decreases |s|
  {
    match IndexFrom(s, sep, 0)
    case None => [s]
    case Some(i) => [s[..i]] + Split(s[i + |sep|..], sep)
  }

  /** `Array.prototype.join(sep)`; the empty array joins to "". */
  function Join(parts: seq<string>, sep: string): string {
    if |parts| == 0 then ""
    else if |parts| == 1 then parts[0]
    else Join(parts[..|parts| - 1], sep) + sep + parts[|parts| - 1]
  }

  function Last(parts: seq<string>): string
    requires |parts| > 0
  {
    parts[|parts| - 1]
  }

  /** The UTF-16 encoding of one Unicode scalar value. */
  function Utf16(c: char): seq<int> {
    if c as int < 0x1_0000 then [c as int]
    else [0xD800 + (c as int - 0x1_0000) / 0x400, 0xDC00 + (c as int - 0x1_0000) % 0x400]
  }

  /** What `charCodeAt(0)`, `charCodeAt(1)`, ... read: the UTF-16 code
      units of the string, `length` of them. */
  function CodeUnits(s: string): seq<int> {
    if s == [] then [] else CodeUnits(s[..|s| - 1]) + Utf16(s[|s| - 1])
  }

  // ---------------------------------------------------------------- lemmas

  /** What `TrimStart` leaves is a suffix that does not start with white
      space, and what it removes is all white space. */
  lemma {:induction false} TrimStartSpec(s: string)
    ensures var r := TrimStart(s);
      && |r| <= |s| && r == s[|s| - |r|..]
      && AllSpace(s[..|s| - |r|])
      && (r == [] || !IsJsSpace(r[0]))
    decreases |s|
  {
    if |s| > 0 && IsJsSpace(s[0]) {
      TrimStartSpec(s[1..]);
      var r := TrimStart(s[1..]);
      assert s[..|s| - |r|] == [s[0]] + s[1..][..|s| - 1 - |r|];
    }
  }

  /** What `TrimEnd` leaves is a prefix that does not end with white
      space, and what it removes is all white space. */
  lemma {:induction false} TrimEndSpec(s: string)
    ensures var r := TrimEnd(s);
      && |r| <= |s| && r == s[..|r|]
      && AllSpace(s[|r|..])
      && (r == [] || !IsJsSpace(r[|r| - 1]))
    decreases |s|
  {
    if |s| > 0 && IsJsSpace(s[|s| - 1]) {
      TrimEndSpec(s[..|s| - 1]);
      var r := TrimEnd(s[..|s| - 1]);
      assert s[|r|..] == s[..|s| - 1][|r|..] + [s[|s| - 1]];
    }
  }

  /** Every code unit is a 16-bit value. */
  lemma {:induction false} CodeUnitsAre16Bit(s: string)
    ensures forall k :: 0 <= k < |CodeUnits(s)| ==> 0 <= CodeUnits(s)[k] < 0x1_0000
  {
    if s != [] {
      CodeUnitsAre16Bit(s[..|s| - 1]);
    }
  }

  /** Joining sees the first piece, then the rest. */
  lemma {:induction false} JoinCons(a: string, rest: seq<string>, sep: string)
    requires |rest| > 0
    ensures Join([a] + rest, sep) == a + sep + Join(rest, sep)
    decreases |rest|
  {
    if |rest| > 1 {
      var all := [a] + rest;
      assert all[..|all| - 1] == [a] + rest[..|rest| - 1];
      JoinCons(a, rest[..|rest| - 1], sep);
    } else {
      assert [a] + rest == [a, rest[0]];
    }
  }

  /** Splitting loses nothing: the pieces join back to the string. */
  lemma {:induction false} SplitJoin(s: string, sep: string)
    requires |sep| > 0
    ensures Join(Split(s, sep), sep) == s
    decreases |s|
  {
    var r := IndexFrom(s, sep, 0);
    if r.Some? {
      var i := r.value;
      var rest := s[i + |sep|..];
      SplitStep(s, sep);
      SplitJoin(rest, sep);
      JoinCons(s[..i], Split(rest, sep), sep);
      Around(s, i, |sep|);
    }
  }

  /** One unfolding of `Split` at the first occurrence. */
  lemma SplitStep(s: string, sep: string)
    requires |sep| > 0 && IndexFrom(s, sep, 0).Some?
    ensures var i := IndexFrom(s, sep, 0).value;
      Split(s, sep) == [s[..i]] + Split(s[i + |sep|..], sep)
  {
  }

  /** A string is what comes before, at and after a slice of it. */
  lemma Around(s: string, i: nat, n: nat)
    requires i + n <= |s|
    ensures s == s[..i] + s[i..i + n] + s[i + n..]
  {
  }

  /** The last piece holds no occurrence of the separator. */
  lemma {:induction false} SplitLastFree(s: string, sep: string)
    requires |sep| > 0
    ensures !Contains(Last(Split(s, sep)), sep)
    decreases |s|
  {
    match IndexFrom(s, sep, 0)
    case None =>
      assert Split(s, sep) == [s];
    case Some(i) =>
      SplitLastFree(s[i + |sep|..], sep);
  }

  /** The last piece is a suffix of the string: the pieces join back to
      it, and the last one is joined last. */
  lemma SplitLastSuffix(s: string, sep: string)
    requires |sep| > 0
    ensures var l := Last(Split(s, sep)); |l| <= |s| && l == s[|s| - |l|..]
  {
    var parts := Split(s, sep);
    var l := Last(parts);
    SplitJoin(s, sep);
    if |parts| > 1 {
      var front := Join(parts[..|parts| - 1], sep) + sep;
      assert s == front + l;
      EndsWith(front, l);
    }
  }

  lemma EndsWith(x: string, l: string)
    ensures (x + l)[|x + l| - |l|..] == l
  {
  }

  /** A string without the separator splits into itself alone; one with
      it splits into at least two pieces. */
  lemma SplitCount(s: string, sep: string)
    requires |sep| > 0
    ensures !Contains(s, sep) <==> Split(s, sep) == [s]
    ensures Contains(s, sep) <==> |Split(s, sep)| >= 2
  {
    match IndexFrom(s, sep, 0)
    case None =>
      assert forall j :: !OccursAt(s, sep, j);
    case Some(i) =>
      assert OccursAt(s, sep, i);
  }

  /** Splitting at the first occurrence of the separator. */
  lemma SplitAtFirst(s: string, sep: string, i: nat)
    requires |sep| > 0 && OccursAt(s, sep, i)
    requires forall j :: 0 <= j < i ==> !OccursAt(s, sep, j)
    ensures Split(s, sep) == [s[..i]] + Split(s[i + |sep|..], sep)
  {
    FirstOccurrence(s, sep, i);
    SplitStep(s, sep);
  }

  /** `IndexFrom` finds the first occurrence. */
  lemma FirstOccurrence(s: string, sep: string, i: nat)
    requires |sep| > 0 && OccursAt(s, sep, i)
    requires forall j :: 0 <= j < i ==> !OccursAt(s, sep, j)
    ensures IndexFrom(s, sep, 0) == Some(i)
  {
  }

  /** The separator cannot start where its first character does not stand. */
  lemma NotAt(s: string, sep: string, j: int)
    requires |sep| > 0 && 0 <= j < |s| && s[j] != sep[0]
    ensures !OccursAt(s, sep, j)
  {
  }

  /** A string that neither starts nor ends with white space trims to itself. */
  lemma TrimUnpadded(s: string)
    requires s != [] && !IsJsSpace(s[0]) && !IsJsSpace(s[|s| - 1])
    ensures Trim(s) == s
  {
  }

  /** Two pieces around the only occurrence of the separator. */
  lemma SplitPair(a: string, sep: string, b: string)
    requires |sep| > 0
    requires forall j :: 0 <= j < |a| ==> a[j] != sep[0]
    requires forall j :: 0 <= j < |b| ==> b[j] != sep[0]
    ensures Split(a + sep + b, sep) == [a, b]
  {
    var s := a + sep + b;
    forall j | 0 <= j < |a| ensures !OccursAt(s, sep, j) {
      assert s[j] == a[j];
      NotAt(s, sep, j);
    }
    assert s[|a|..|a| + |sep|] == sep;
    SplitAtFirst(s, sep, |a|);
    assert s[..|a|] == a && s[|a| + |sep|..] == b;
    forall j ensures !OccursAt(b, sep, j) {
      if 0 <= j < |b| {
        NotAt(b, sep, j);
      }
    }
    SplitWithout(b, sep);
  }

  /** A string without the separator is one piece. */
  lemma SplitWithout(s: string, sep: string)
    requires |sep| > 0
    requires forall j :: !OccursAt(s, sep, j)
    ensures Split(s, sep) == [s]
  {
    var r := IndexFrom(s, sep, 0);
    assert r.None?;
  }

  /** Lower-casing works character by character. */
  lemma LowerConcat(a: string, b: string)
    ensures Lower(a + b) == Lower(a) + Lower(b)
  {
    assert forall i :: 0 <= i < |a + b| ==> Lower(a + b)[i] == (Lower(a) + Lower(b))[i];
  }

  /** White space has no case. */
  lemma LowerSpace(w: string)
    requires AllSpace(w)
    ensures Lower(w) == w
  {
    assert forall i :: 0 <= i < |w| ==> Lower(w)[i] == w[i];
  }

  lemma {:induction false} TrimStartSkipsSpace(w: string, y: string)
    requires AllSpace(w)
    ensures TrimStart(w + y) == TrimStart(y)
    decreases |w|
  {
    if w != [] {
      assert (w + y)[0] == w[0] && IsJsSpace(w[0]);
      assert (w + y)[1..] == w[1..] + y;
      TrimStartSkipsSpace(w[1..], y);
    } else {
      assert w + y == y;
    }
  }

  lemma {:induction false} TrimStartAppend(x: string, y: string)
    requires TrimStart(x) != []
    ensures TrimStart(x + y) == TrimStart(x) + y
    decreases |x|
  {
    assert x != [];
    assert (x + y)[0] == x[0];
    if IsJsSpace(x[0]) {
      assert (x + y)[1..] == x[1..] + y;
      TrimStartAppend(x[1..], y);
    }
  }

  lemma {:induction false} TrimEndSkipsSpace(y: string, w: string)
    requires AllSpace(w)
    ensures TrimEnd(y + w) == TrimEnd(y)
    decreases |w|
  {
    if w != [] {
      var yw := y + w;
      assert yw[..|yw| - 1] == y + w[..|w| - 1];
      assert yw[|yw| - 1] == w[|w| - 1] && IsJsSpace(w[|w| - 1]);
      TrimEndSkipsSpace(y, w[..|w| - 1]);
    } else {
      assert y + w == y;
    }
  }

  /** Surrounding white space makes no difference to `trim`. */
  lemma TrimIgnoresPadding(w1: string, x: string, w2: string)
    requires AllSpace(w1) && AllSpace(w2)
    ensures Trim(w1 + x + w2) == Trim(x)
  {
    assert w1 + x + w2 == w1 + (x + w2);
    TrimStartSkipsSpace(w1, x + w2);
    var t := TrimStart(x);
    TrimStartSpec(x);
    if t == [] {
      assert AllSpace(x);
      assert AllSpace(x + w2);
      TrimStartSkipsSpace(x + w2, []);
      assert x + w2 + [] == x + w2;
    } else {
      TrimStartAppend(x, w2);
      TrimEndSkipsSpace(t, w2);
    }
  }
}
