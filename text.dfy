/** The three JavaScript string built-ins the dashboard's search relies on:
    `String.prototype.toLowerCase`, `String.prototype.trim` and
    `String.prototype.includes`, stated on `seq<char>`.

    `ToLower` folds only the ASCII letters A-Z; the full Unicode case mapping
    of `toLowerCase` is not modelled. `IsSpace` is the complete set of code
    points `trim` removes (ECMAScript WhiteSpace and LineTerminator). */
module Text {

  /** The single characters JavaScript's `toLowerCase` maps, restricted to ASCII. */
  predicate IsUpper(c: char) {
    'A' <= c <= 'Z'
  }

  function LowerChar(c: char): (d: char)
    ensures IsUpper(c) ==> d as int == c as int + 32
    ensures !IsUpper(c) ==> d == c
    ensures !IsUpper(d)
  {
    if IsUpper(c) then (c as int + 32) as char else c
  }

  /** `s.toLowerCase()` over ASCII: every character folded, nothing added or removed. */
  function ToLower(s: string): (r: string)
    ensures |r| == |s|
    ensures forall k :: 0 <= k < |s| ==> r[k] == LowerChar(s[k])
  {
    if s == [] then [] else [LowerChar(s[0])] + ToLower(s[1..])
  }

  /** Lower-casing twice is lower-casing once. */
  lemma ToLowerIdempotent(s: string)
    ensures ToLower(ToLower(s)) == ToLower(s)
  {
    var once := ToLower(s);
    var twice := ToLower(once);
    assert forall k :: 0 <= k < |s| ==> twice[k] == LowerChar(once[k]) == once[k];
  }

  /** The code points removed by `String.prototype.trim`: tab, line feed,
      vertical tab, form feed, carriage return, space, no-break space, the
      Unicode space separators, the line and paragraph separators and the
      byte-order mark. */
  predicate IsSpace(c: char) {
    var n := c as int;
    (0x09 <= n <= 0x0D) || n == 0x20 || n == 0xA0 || n == 0x1680 ||
    (0x2000 <= n <= 0x200A) || n == 0x2028 || n == 0x2029 || n == 0x202F ||
    n == 0x205F || n == 0x3000 || n == 0xFEFF
  }

  predicate AllSpace(s: string) {
    forall k :: 0 <= k < |s| ==> IsSpace(s[k])
  }

  /** Number of whitespace characters at the front of `s`. */
  function LeadingSpace(s: string): (n: nat)
    ensures n <= |s|
    ensures forall k :: 0 <= k < n ==> IsSpace(s[k])
    ensures n < |s| ==> !IsSpace(s[n])
  {
    if s == [] || !IsSpace(s[0]) then 0 else LeadingSpace(s[1..]) + 1
  }

  /** The end of `s[..j]` once its trailing whitespace is dropped. */
  function EndWithoutSpace(s: string, j: nat): (e: nat)
    requires j <= |s|
    ensures e <= j
    ensures forall k :: e <= k < j ==> IsSpace(s[k])
    ensures e > 0 ==> !IsSpace(s[e - 1])
    decreases j
  {
    if j == 0 || !IsSpace(s[j - 1]) then j else EndWithoutSpace(s, j - 1)
  }

  /** `r` sits in `s` at index `i`, with only whitespace before and after it. */
  ghost predicate SlicedFromSpace(s: string, r: string, i: nat) {
    i + |r| <= |s| && s[i..i + |r|] == r &&
    (forall k :: 0 <= k < i ==> IsSpace(s[k])) &&
    (forall k :: i + |r| <= k < |s| ==> IsSpace(s[k]))
  }

  /** `s.trim()`: the text between the leading and the trailing whitespace.
      The full characterisation is `TrimSpec`. */
  function Trim(s: string): (r: string)
    ensures |r| <= |s|
    ensures r != [] ==> !IsSpace(r[0]) && !IsSpace(r[|r| - 1])
  {
    var i := LeadingSpace(s);
    var e := EndWithoutSpace(s, |s|);
    if i < e then s[i..e] else []
  }

  /** What `trim` promises: a slice of the input with only whitespace before
      and after it, neither starting nor ending with whitespace, and empty
      exactly when the input is all whitespace. */
  lemma TrimSpec(s: string)
    ensures |Trim(s)| <= |s|
    ensures Trim(s) == [] <==> AllSpace(s)
    ensures Trim(s) != [] ==> !IsSpace(Trim(s)[0]) && !IsSpace(Trim(s)[|Trim(s)| - 1])
    ensures exists i: nat :: SlicedFromSpace(s, Trim(s), i)
  {
    var i := LeadingSpace(s);
    var e := EndWithoutSpace(s, |s|);
    if i < |s| {
      assert !IsSpace(s[i]);
      assert i < e;
      assert SlicedFromSpace(s, s[i..e], i);
    } else {
      assert AllSpace(s);
      assert SlicedFromSpace(s, [], 0);
    }
  }

  /** Trimming twice is trimming once. */
  lemma TrimIdempotent(s: string)
    ensures Trim(Trim(s)) == Trim(s)
  {
    var r := Trim(s);
    TrimSpec(s);
    if r != [] {
      assert LeadingSpace(r) == 0;
      assert EndWithoutSpace(r, |r|) == |r|;
      assert r[0..|r|] == r;
    }
  }

  /** `needle` occurs in `hay` starting at index `i`. */
  ghost predicate OccursAt(hay: string, needle: string, i: nat) {
    i + |needle| <= |hay| && hay[i..i + |needle|] == needle
  }

  /** `needle` occurs somewhere in `hay`. */
  ghost predicate Occurs(hay: string, needle: string) {
    exists i: nat :: OccursAt(hay, needle, i)
  }

  /** `hay.includes(needle)`: scan the start positions left to right. The
      empty needle is found everywhere, and nothing longer than `hay` is. */
  function Contains(hay: string, needle: string): (b: bool)
    ensures needle == [] ==> b
    ensures b ==> |needle| <= |hay|
  {
    if needle <= hay then true
    else if hay == [] then false
    else Contains(hay[1..], needle)
  }

  /** An occurrence at any position is found by the scan. */
  lemma {:induction false} ContainsComplete(hay: string, needle: string, i: nat)
    requires OccursAt(hay, needle, i)
    ensures Contains(hay, needle)
    decreases i
  {
    if i == 0 {
      assert needle <= hay by { assert hay[..|needle|] == needle; }
    } else if !(needle <= hay) {
      assert hay[1..][i - 1..i - 1 + |needle|] == hay[i..i + |needle|];
      ContainsComplete(hay[1..], needle, i - 1);
    }
  }

  /** What the scan finds is an occurrence. */
  lemma {:induction false} ContainsSound(hay: string, needle: string)
    requires Contains(hay, needle)
    ensures exists i: nat :: OccursAt(hay, needle, i)
  {
    if needle <= hay {
      assert hay[0..|needle|] == needle;
      assert OccursAt(hay, needle, 0);
    } else {
      ContainsSound(hay[1..], needle);
      var i: nat :| OccursAt(hay[1..], needle, i);
      assert hay[1..][i..i + |needle|] == hay[i + 1..i + 1 + |needle|];
      assert OccursAt(hay, needle, i + 1);
    }
  }

  /** `Contains` holds exactly when `needle` occurs at some position of `hay`. */
  lemma ContainsIff(hay: string, needle: string)
    ensures Contains(hay, needle) <==> Occurs(hay, needle)
  {
    if Contains(hay, needle) {
      ContainsSound(hay, needle);
    } else {
      forall i: nat ensures !OccursAt(hay, needle, i) {
        if OccursAt(hay, needle, i) { ContainsComplete(hay, needle, i); }
      }
    }
  }
}
