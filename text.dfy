/** String operations of JavaScript that the core relies on: `trim`,
    `toLowerCase`, `includes`, `indexOf` and the pieces of `split`. */
module Text {
  import opened Basics

  /** The characters `String.prototype.trim` removes: WhiteSpace and
      LineTerminator of ECMAScript (section 12.2 and 12.3 of ECMA-262). */
  predicate IsJsSpace(c: char) {
    var n := c as int;
    n == 0x09 || n == 0x0A || n == 0x0B || n == 0x0C || n == 0x0D || n == 0x20 ||
    n == 0xA0 || n == 0x1680 || (0x2000 <= n <= 0x200A) || n == 0x2028 || n == 0x2029 ||
    n == 0x202F || n == 0x205F || n == 0x3000 || n == 0xFEFF
  }

  function TrimStart(s: string): (r: string)
    ensures |r| <= |s| && r == s[|s| - |r|..]
    ensures r == [] || !IsJsSpace(r[0])
    ensures forall i :: 0 <= i < |s| - |r| ==> IsJsSpace(s[i])
  {
    if s != [] && IsJsSpace(s[0]) then TrimStart(s[1..]) else s
  }

  function TrimEnd(s: string): (r: string)
    ensures |r| <= |s| && r == s[..|r|]
    ensures r == [] || !IsJsSpace(r[|r| - 1])
    ensures forall i :: |r| <= i < |s| ==> IsJsSpace(s[i])
  {
    if s != [] && IsJsSpace(s[|s| - 1]) then TrimEnd(s[..|s| - 1]) else s
  }

  /** `r` is the infix of `s` at `a`, and everything around it is white space. */
  predicate SpacesAround(s: string, r: string, a: nat) {
    && a + |r| <= |s| && r == s[a..a + |r|]
    && (forall i :: 0 <= i < a ==> IsJsSpace(s[i]))
    && (forall i :: a + |r| <= i < |s| ==> IsJsSpace(s[i]))
  }

  /** `s.trim()`: the longest infix that neither starts nor ends with a space. */
  function Trim(s: string): (r: string)
    ensures r == [] || (!IsJsSpace(r[0]) && !IsJsSpace(r[|r| - 1]))
    ensures exists a: nat :: SpacesAround(s, r, a)
  {
    var a := TrimStart(s);
    var r := TrimEnd(a);
    assert r != [] ==> r[0] == a[0];
    SpacesAroundCompose(s, a, r, |s| - |a|);
    r
  }

  /** Cutting spaces from the front and then from the back leaves an infix
      with only spaces around it. */
  lemma SpacesAroundCompose(s: string, a: string, r: string, k: nat)
    requires k + |a| == |s| && a == s[k..]
    requires forall i :: 0 <= i < k ==> IsJsSpace(s[i])
    requires |r| <= |a| && r == a[..|r|]
    requires forall i :: |r| <= i < |a| ==> IsJsSpace(a[i])
    ensures SpacesAround(s, r, k)
  {
    assert r == s[k..k + |r|];
    forall i | k + |r| <= i < |s| ensures IsJsSpace(s[i]) {
      assert s[i] == a[i - k];
    }
  }

  lemma TrimStartNoop(s: string)
    requires s == [] || !IsJsSpace(s[0])
    ensures TrimStart(s) == s
  {}

  lemma TrimEndNoop(s: string)
    requires s == [] || !IsJsSpace(s[|s| - 1])
    ensures TrimEnd(s) == s
  {}

  /** Trimming twice is trimming once. */
  lemma TrimIdempotent(s: string)
    ensures Trim(Trim(s)) == Trim(s)
  {
    var t := Trim(s);
    TrimStartNoop(t);
    TrimEndNoop(t);
  }

  /** `toLowerCase` on one character, for the ASCII letters. */
  function LowerChar(c: char): (r: char)
    ensures 'A' <= c <= 'Z' ==> r as int == c as int + 32
    ensures !('A' <= c <= 'Z') ==> r == c
  {
    if 'A' <= c <= 'Z' then (c as int + 32) as char else c
  }

  function ToLower(s: string): (r: string)
    ensures |r| == |s|
    ensures forall i :: 0 <= i < |s| ==> r[i] == LowerChar(s[i])
  {
    seq(|s|, i requires 0 <= i < |s| => LowerChar(s[i]))
  }

  /** A character outside the Basic Multilingual Plane, which a JavaScript
      string stores as a surrogate pair of two code units. */
  predicate IsAstral(c: char) {
    c as int >= 0x10000
  }

  /** `s.length`: the number of UTF-16 code units, not of characters. */
  function JsLength(s: string): (n: nat)
    ensures |s| <= n <= 2 * |s|
  {
    if s == [] then 0 else JsLength(s[..|s| - 1]) + (if IsAstral(s[|s| - 1]) then 2 else 1)
  }

  /** `s.length` counts characters exactly when no character is astral. */
  lemma {:induction false} JsLengthCountsCharacters(s: string)
    ensures JsLength(s) == |s| <==> forall i :: 0 <= i < |s| ==> !IsAstral(s[i])
  {
    if s != [] {
      var p := s[..|s| - 1];
      JsLengthCountsCharacters(p);
      assert forall i :: 0 <= i < |p| ==> p[i] == s[i];
    }
  }

  predicate OccursAt(s: string, sep: string, i: nat) {
    i + |sep| <= |s| && s[i..i + |sep|] == sep
  }

  /** `s.indexOf(sep, from)`: the first occurrence at or after `from`. */
  function IndexOfFrom(s: string, sep: string, from: nat): (r: Option<nat>)
    decreases |s| - from
    ensures r.Some? ==> from <= r.value && OccursAt(s, sep, r.value)
    ensures r.Some? ==> forall j :: from <= j < r.value ==> !OccursAt(s, sep, j)
    ensures r.None? ==> forall j :: from <= j ==> !OccursAt(s, sep, j)
  {
    if from + |sep| > |s| then None
    else if s[from..from + |sep|] == sep then Some(from)
    else IndexOfFrom(s, sep, from + 1)
  }

  function IndexOf(s: string, sep: string): (r: Option<nat>)
    ensures r.Some? ==> OccursAt(s, sep, r.value) && forall j: nat :: j < r.value ==> !OccursAt(s, sep, j)
    ensures r.None? ==> forall j: nat :: !OccursAt(s, sep, j)
  {
    IndexOfFrom(s, sep, 0)
  }

  /** `s.includes(sep)`. */
  predicate Contains(s: string, sep: string) {
    IndexOf(s, sep).Some?
  }

  /** `s.split(sep)[0]` for a non-empty separator: the text before the first occurrence. */
  function SplitFirst(s: string, sep: string): (r: string)
    requires sep != []
    ensures IsPrefixOf(r, s)
    ensures !Contains(s, sep) ==> r == s
    ensures Contains(s, sep) ==> |r| == IndexOf(s, sep).value && OccursAt(s, sep, |r|)
  {
    match IndexOf(s, sep)
    case None => s
    case Some(i) => s[..i]
  }

  /** `s.split(sep)[1]` for a separator that occurs: the text between the first
      occurrence and the next one (or the end). */
  function SplitSecond(s: string, sep: string): (r: string)
    requires sep != [] && Contains(s, sep)
    ensures var rest := s[IndexOf(s, sep).value + |sep|..];
      && IsPrefixOf(r, rest)
      && (forall j :: 0 <= j < |r| ==> !OccursAt(rest, sep, j))
      && (|r| == |rest| || OccursAt(rest, sep, |r|))
  {
    var i := IndexOf(s, sep).value;
    SplitFirst(s[i + |sep|..], sep)
  }

  predicate IsPrefixOf(p: string, s: string) {
    |p| <= |s| && s[..|p|] == p
  }

  /** A piece produced by `split(c)[0]` with a one-character separator never holds `c`. */
  lemma SplitFirstExcludes(s: string, c: char)
    ensures forall i :: 0 <= i < |SplitFirst(s, [c])| ==> SplitFirst(s, [c])[i] != c
  {
    var r := SplitFirst(s, [c]);
    forall i | 0 <= i < |r| ensures r[i] != c {
      assert s[i..i + 1] == [s[i]];
      assert !OccursAt(s, [c], i);
    }
  }

  /** A string none of whose characters is `c` is left whole by `split(c)[0]`. */
  lemma SplitFirstWhole(s: string, c: char)
    requires forall i :: 0 <= i < |s| ==> s[i] != c
    ensures SplitFirst(s, [c]) == s
  {
    if Contains(s, [c]) {
      var i := IndexOf(s, [c]).value;
      assert OccursAt(s, [c], i);
      assert s[i] == s[i..i + 1][0];
    }
  }
}
