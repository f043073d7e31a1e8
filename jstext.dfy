/**
 * The two string operations of the JavaScript standard library that the
 * record normaliser relies on: `String.prototype.trim` and
 * `Array.prototype.join`.
 */
module JsText {

  /**
   * The characters `trim` removes: ECMAScript's WhiteSpace (tab, vertical
   * tab, form feed, space, no-break space, the byte-order mark and every
   * character of Unicode category Zs) and LineTerminator (line feed,
   * carriage return, line and paragraph separators).
   */
  predicate IsTrimmable(c: char) {
    || c == '\t' || c == '\n' || c == '\U{000B}' || c == '\U{000C}' || c == '\r'
    || c == ' ' || c == '\U{00A0}' || c == '\U{1680}'
    || ('\U{2000}' <= c <= '\U{200A}')
    || c == '\U{2028}' || c == '\U{2029}' || c == '\U{202F}' || c == '\U{205F}'
    || c == '\U{3000}' || c == '\U{FEFF}'
  }

  /** True when every character of `s` is one that `trim` removes. */
  predicate AllTrimmable(s: string) {
    forall i :: 0 <= i < |s| ==> IsTrimmable(s[i])
  }

  /** The index of the first character at or after `i` that `trim` keeps. */
  function SkipLeading(s: string, i: nat): (r: nat)
    requires i <= |s|
    ensures i <= r <= |s|
    ensures forall k :: i <= k < r ==> IsTrimmable(s[k])
    ensures r == |s| || !IsTrimmable(s[r])
    decreases |s| - i
  {
    if i < |s| && IsTrimmable(s[i]) then SkipLeading(s, i + 1) else i
  }

  /** One past the last character before `j`, and not before `lo`, that `trim` keeps. */
  function SkipTrailing(s: string, lo: nat, j: nat): (r: nat)
    requires lo <= j <= |s|
    ensures lo <= r <= j
    ensures forall k :: r <= k < j ==> IsTrimmable(s[k])
    ensures r == lo || !IsTrimmable(s[r - 1])
    decreases j
  {
    if j > lo && IsTrimmable(s[j - 1]) then SkipTrailing(s, lo, j - 1) else j
  }

  /** Where the slice that `Trim` keeps starts in `s`. */
  function TrimOffset(s: string): (k: nat)
    ensures k <= |s|
  {
    SkipLeading(s, 0)
  }

  /**
   * `String.prototype.trim`: the slice of `s` left once leading and
   * trailing whitespace are removed. It neither starts nor ends with
   * whitespace, everything removed is whitespace, and it is empty exactly
   * when `s` is all whitespace.
   */
  function Trim(s: string): (r: string)
    ensures TrimOffset(s) + |r| <= |s| && r == s[TrimOffset(s)..TrimOffset(s) + |r|]
    ensures forall k :: 0 <= k < TrimOffset(s) ==> IsTrimmable(s[k])
    ensures forall k :: TrimOffset(s) + |r| <= k < |s| ==> IsTrimmable(s[k])
    ensures r == [] || (!IsTrimmable(r[0]) && !IsTrimmable(r[|r| - 1]))
    ensures r == [] <==> AllTrimmable(s)
  {
    var a := SkipLeading(s, 0);
    var b := SkipTrailing(s, a, |s|);
    assert b > a ==> !IsTrimmable(s[b - 1]);
    s[a..b]
  }

  /** Text that neither starts nor ends with whitespace is its own trim. */
  lemma TrimOfTrimmed(s: string)
    requires s == [] || (!IsTrimmable(s[0]) && !IsTrimmable(s[|s| - 1]))
    ensures Trim(s) == s
  {
    if s != [] {
      assert SkipLeading(s, 0) == 0;
      assert SkipTrailing(s, 0, |s|) == |s|;
    }
  }

  /** Trimming twice is trimming once. */
  lemma TrimIdempotent(s: string)
    ensures Trim(Trim(s)) == Trim(s)
  {
    TrimOfTrimmed(Trim(s));
  }

  /**
   * `Array.prototype.join`: the pieces in order with `sep` between every two
   * neighbours (see `JoinCons` and `JoinAppend`).
   */
  function Join(pieces: seq<string>, sep: string): (r: string)
    ensures pieces == [] ==> r == ""
    ensures |pieces| == 1 ==> r == pieces[0]
  {
    if |pieces| == 0 then ""
    else if |pieces| == 1 then pieces[0]
    else pieces[0] + sep + Join(pieces[1..], sep)
  }

  /** The first piece is a prefix of the joined text and the last a suffix. */
  lemma {:induction false} JoinEnds(pieces: seq<string>, sep: string)
    requires pieces != []
    ensures |pieces[0]| <= |Join(pieces, sep)| && Join(pieces, sep)[..|pieces[0]|] == pieces[0]
    ensures var last := pieces[|pieces| - 1]; var r := Join(pieces, sep);
      |last| <= |r| && r[|r| - |last|..] == last
  {
    if |pieces| > 1 {
      var rest := pieces[1..];
      JoinEnds(rest, sep);
      assert rest[|rest| - 1] == pieces[|pieces| - 1];
      var r, tail := Join(pieces, sep), Join(rest, sep);
      assert r == pieces[0] + sep + tail;
      assert r[..|pieces[0]|] == pieces[0];
      assert r[|r| - |tail|..] == tail;
    }
  }

  /** A piece followed by a non-empty list: the piece, `sep`, and the rest joined. */
  lemma JoinCons(p: string, rest: seq<string>, sep: string)
    requires rest != []
    ensures Join([p] + rest, sep) == p + sep + Join(rest, sep)
  {
    assert ([p] + rest)[1..] == rest;
  }

  /**
   * Joining two non-empty lists is joining each and putting one `sep`
   * between them: every two neighbours are separated by exactly `sep`.
   */
  lemma {:induction false} JoinAppend(a: seq<string>, b: seq<string>, sep: string)
    requires a != [] && b != []
    ensures Join(a + b, sep) == Join(a, sep) + sep + Join(b, sep)
  {
    assert a + b == [a[0]] + (a[1..] + b);
    JoinCons(a[0], a[1..] + b, sep);
    if |a| == 1 {
      assert a[1..] + b == b;
    } else {
      JoinAppend(a[1..], b, sep);
      assert a == [a[0]] + a[1..];
      JoinCons(a[0], a[1..], sep);
    }
  }
}
