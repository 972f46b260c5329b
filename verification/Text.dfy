/** Text helpers shared by the two Rust lexers and the report reader.
    Every scan is stated on the remaining suffix of the text, so that no lemma
    has to move positions between a text and its parts. */
module Text {

  datatype Option<+T> = None | Some(value: T)

  /** What `str.splitlines` splits at. */
  predicate LineBreak(c: char) {
    var n := c as int;
    0x0A <= n <= 0x0D || 0x1C <= n <= 0x1E || n == 0x85 || n == 0x2028 || n == 0x2029
  }

  /** What `str.strip` strips. */
  predicate Space(c: char) {
    var n := c as int;
    || LineBreak(c) || n == 0x09 || n == 0x1F || n == 0x20 || n == 0xA0 || n == 0x1680
    || 0x2000 <= n <= 0x200A || n == 0x202F || n == 0x205F || n == 0x3000
  }

  predicate Upper(c: char) { 'A' <= c <= 'Z' }

  predicate Digit(c: char) { '0' <= c <= '9' }

  /** `str.find`: the offset of the first occurrence of `w` in `t`. */
  function Find(t: string, w: string): (r: Option<nat>)
    ensures r.Some? ==> r.value + |w| <= |t| && w <= t[r.value..]
    ensures r.Some? ==> forall k :: 0 <= k < r.value ==> !(w <= t[k..])
    ensures r.None? ==> forall k :: 0 <= k <= |t| ==> !(w <= t[k..])
  {
    if w <= t then Some(0)
    else if t == "" then None
    else
      NotFoundAtFront(t, w);
      match Find(t[1..], w)
      case None => None
      case Some(k) => Some(k + 1)
  }

  /** Occurrences after the front are occurrences in the tail. */
  lemma NotFoundAtFront(t: string, w: string)
    requires t != "" && !(w <= t)
    ensures forall k :: 0 < k <= |t| ==> t[k..] == t[1..][k - 1..]
    ensures t[0..] == t
  {
  }

  /** The run of `#` at the front of `t`. */
  function HashRun(t: string): (n: nat)
    ensures n <= |t|
    ensures forall k :: 0 <= k < n ==> t[k] == '#'
    ensures n < |t| ==> t[n] != '#'
  {
    if t != "" && t[0] == '#' then 1 + HashRun(t[1..]) else 0
  }

  function Hashes(n: nat): (s: string)
    ensures |s| == n && forall c :: c in s ==> c == '#'
  {
    seq(n, _ => '#')
  }

  /** The offset of the first newline, or the length of a text without one. */
  function LineLength(t: string): (n: nat)
    ensures n <= |t|
    ensures forall k :: 0 <= k < n ==> t[k] != '\n'
    ensures n < |t| ==> t[n] == '\n'
  {
    if t == "" || t[0] == '\n' then 0 else 1 + LineLength(t[1..])
  }

  lemma HashRunOf(n: nat, rest: string)
    requires rest == "" || rest[0] != '#'
    ensures HashRun(Hashes(n) + rest) == n
  {
    var t := Hashes(n) + rest;
    assert rest != "" ==> t[n] == rest[0];
  }
}
