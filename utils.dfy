/**
 * Character classes of the "C" locale, `std::string::find`, and the in-place
 * replace-all helper `utils_rk::replace` (src/utils/utils.cpp).
 */
module Utils {
  import opened Wrappers

  /** `isspace` in the "C" locale: ' ', '\t', '\n', '\v', '\f', '\r'. */
  predicate IsSpace(c: char) {
    c == ' ' || '\t' <= c <= '\r'
  }

  /** `isalnum` in the "C" locale. */
  predicate IsAlnum(c: char) {
    'a' <= c <= 'z' || 'A' <= c <= 'Z' || '0' <= c <= '9'
  }

  /** `tolower` in the "C" locale: it only moves 'A'..'Z' to 'a'..'z'. */
  function ToLower(c: char): (r: char)
    ensures !('A' <= r <= 'Z')
    ensures IsSpace(r) <==> IsSpace(c)
    ensures IsAlnum(r) <==> IsAlnum(c)
    ensures r == '-' <==> c == '-'
    ensures r == '.' <==> c == '.'
  {
    if 'A' <= c <= 'Z' then (c as int + 32) as char else c
  }

  /** The string lowered character by character (`std::transform` with `tolower`). */
  function Lower(s: string): string {
    seq(|s|, i requires 0 <= i < |s| => ToLower(s[i]))
  }

  /** Number of whitespace characters at the start of `s`. */
  function LeadingSpaces(s: string): (n: nat)
    ensures n <= |s|
    ensures forall j :: 0 <= j < n ==> IsSpace(s[j])
    ensures n < |s| ==> !IsSpace(s[n])
  {
    if s == [] || !IsSpace(s[0]) then 0 else 1 + LeadingSpaces(s[1..])
  }

  lemma {:induction false} LowerKeepsLeadingSpaces(s: string)
    ensures LeadingSpaces(Lower(s)) == LeadingSpaces(s)
  {
    if s != [] {
      assert Lower(s)[0] == ToLower(s[0]);
      assert Lower(s)[1..] == Lower(s[1..]);
      LowerKeepsLeadingSpaces(s[1..]);
    }
  }

  /** `pat` occurs in `s` at index `i`. */
  predicate OccursAt(s: string, pat: string, i: nat) {
    i + |pat| <= |s| && s[i..i + |pat|] == pat
  }

  /** `s.find(pat, from)`: the leftmost occurrence of `pat` at or after `from`; `None` is `npos`. */
  function Find(s: string, pat: string, from: nat): (r: Option<nat>)
    ensures r.Some? ==> from <= r.value && OccursAt(s, pat, r.value)
    ensures r.Some? ==> forall j: nat :: from <= j < r.value ==> !OccursAt(s, pat, j)
    ensures r.None? ==> forall j: nat :: from <= j ==> !OccursAt(s, pat, j)
    decreases |s| - from
  {
    if from + |pat| > |s| then None
    else if s[from..from + |pat|] == pat then Some(from)
    else Find(s, pat, from + 1)
  }

  /** Searching a suffix is searching the whole string from where the suffix starts. */
  lemma {:induction false} FindInSuffix(s: string, pat: string, k: nat, m: nat)
    requires k <= |s|
    ensures Find(s[k..], pat, m) == match Find(s, pat, k + m)
                                    case None => None
                                    case Some(p) => Some(p - k)
    decreases |s| - k - m
  {
    if k + m + |pat| <= |s| {
      assert s[k..][m..m + |pat|] == s[k + m..k + m + |pat|];
      if s[k + m..k + m + |pat|] != pat {
        FindInSuffix(s, pat, k, m + 1);
      }
    }
  }

  /**
   * Reference definition of replace-all: the text before the leftmost
   * occurrence is kept, the occurrence becomes `to`, and the search goes on
   * in the text after the occurrence, so `to` itself is never searched.
   */
  function ReplaceAll(s: string, from: string, to: string): string
    requires from != []
    decreases |s|
  {
    match Find(s, from, 0)
    case None => s
    case Some(p) => s[..p] + to + ReplaceAll(s[p + |from|..], from, to)
  }

  /**
   * `utils_rk::replace`: rewrites `s` in place, resuming each search at
   * `pos + |to|`. It only terminates for a non-empty `from`.
   */
  method Replace(s: string, from: string, to: string) returns (r: string)
    requires from != []
    ensures r == ReplaceAll(s, from, to)
  {
    r := s;
    var pos := Find(r, from, 0);
    var start := 0;
    while pos.Some?
      invariant start <= |r|
      invariant pos == Find(r, from, start)
      invariant ReplaceAll(s, from, to) == r[..start] + ReplaceAll(r[start..], from, to)
      decreases |r| - start
    {
      var p := pos.value;
      ReplaceStep(r, from, to, start, p);
      ghost var r0 := r;
      r := r[..p] + to + r[p + |from|..];
      start := p + |to|;
      assert r[..start] == r0[..p] + to;
      assert r[start..] == r0[p + |from|..];
      pos := Find(r, from, start);
    }
    ReplaceDone(r, from, to, start);
    assert r[..start] + r[start..] == r;
  }

  /** One step of the in-place loop: the occurrence found from `start` is rewritten, the rest is still to do. */
  lemma {:induction false} ReplaceStep(r: string, from: string, to: string, start: nat, p: nat)
    requires from != [] && start <= |r|
    requires Find(r, from, start) == Some(p)
    ensures r[..start] + ReplaceAll(r[start..], from, to)
            == r[..p] + to + ReplaceAll(r[p + |from|..], from, to)
  {
    var rest, q := r[start..], p - start;
    FindShift(r, from, start, p);
    ReplaceFirst(rest, from, to, q);
    assert rest[q + |from|..] == r[p + |from|..];
    JoinAt(r, start, p, to, ReplaceAll(r[p + |from|..], from, to));
  }

  /** A search from `start` is a search of the suffix from its beginning. */
  lemma {:induction false} FindShift(r: string, from: string, start: nat, p: nat)
    requires start <= |r| && Find(r, from, start) == Some(p)
    ensures start <= p && Find(r[start..], from, 0) == Some(p - start)
  {
    FindInSuffix(r, from, start, 0);
  }

  lemma {:induction false} JoinAt(r: string, start: nat, p: nat, mid: string, tail: string)
    requires start <= p <= |r|
    ensures r[..start] + (r[start..][..p - start] + mid + tail) == r[..p] + mid + tail
  {
    assert r[start..][..p - start] == r[start..p];
    assert r[..start] + r[start..p] == r[..p];
  }

  /** `ReplaceAll` rewrites the first occurrence and goes on after it. */
  lemma {:induction false} ReplaceFirst(s: string, from: string, to: string, q: nat)
    requires from != []
    requires Find(s, from, 0) == Some(q)
    ensures ReplaceAll(s, from, to) == s[..q] + to + ReplaceAll(s[q + |from|..], from, to)
  {
  }

  /** The loop's exit: nothing found from `start` means the rest stays as it is. */
  lemma {:induction false} ReplaceDone(r: string, from: string, to: string, start: nat)
    requires from != [] && start <= |r|
    requires Find(r, from, start).None?
    ensures ReplaceAll(r[start..], from, to) == r[start..]
  {
    FindInSuffix(r, from, start, 0);
  }

  /** A string without `from` is left as it is. */
  lemma ReplaceAbsent(s: string, from: string, to: string)
    requires from != []
    requires forall j: nat :: !OccursAt(s, from, j)
    ensures ReplaceAll(s, from, to) == s
  {
  }

  /** Replacing `from` by itself changes nothing. */
  lemma {:induction false} ReplaceWithItself(s: string, from: string)
    requires from != []
    ensures ReplaceAll(s, from, from) == s
    decreases |s|
  {
    match Find(s, from, 0)
    case None =>
    case Some(p) =>
      ReplaceWithItself(s[p + |from|..], from);
      assert s[..p] + from + s[p + |from|..] == s by {
        assert s[p..p + |from|] == from;
        assert s == s[..p] + s[p..p + |from|] + s[p + |from|..];
      }
  }
}
