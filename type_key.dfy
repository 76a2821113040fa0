/**
 * The key of the per-type breakdown: `type.replace(/_coder|_ui/, '')`. Without the
 * `g` flag the regular expression removes only its leftmost match; at each position
 * the alternative `_coder` is tried before `_ui`.
 */
module TypeKeys {
  import opened Wrappers

  const Coder: string := "_coder"
  const Ui: string := "_ui"

  /** `pat` occurs in `s` starting at position `i`. */
  predicate OccursAt(s: string, i: nat, pat: string)
  {
    i + |pat| <= |s| && s[i..i + |pat|] == pat
  }

  /** `s` holds at least one match of either alternative. */
  ghost predicate HasMatch(s: string)
  {
    exists i: nat :: OccursAt(s, i, Coder) || OccursAt(s, i, Ui)
  }

  /** `p` is the leftmost position where the pattern matches, and `n` the matched length. */
  ghost predicate IsLeftmostMatch(s: string, p: nat, n: nat)
  {
    && ((n == |Coder| && OccursAt(s, p, Coder)) || (n == |Ui| && OccursAt(s, p, Ui)))
    && forall q: nat :: q < p ==> !OccursAt(s, q, Coder) && !OccursAt(s, q, Ui)
  }

  /**
   * The length of the alternative that matches at `i`, `_coder` first. The two
   * alternatives never both match at one position, so the order of trial is immaterial.
   */
  function MatchAt(s: string, i: nat): (n: Option<nat>)
    ensures n == Some(|Coder|) <==> OccursAt(s, i, Coder)
    ensures n == Some(|Ui|) <==> OccursAt(s, i, Ui)
    ensures n.None? <==> !OccursAt(s, i, Coder) && !OccursAt(s, i, Ui)
  {
    if OccursAt(s, i, Coder) then
      assert s[i + 1] == s[i..i + 6][1] == 'c';
      Some(|Coder|)
    else if OccursAt(s, i, Ui) then Some(|Ui|)
    else None
  }

  datatype Match = Match(pos: nat, len: nat)

  /** The regular expression's scan from position `from` to the end of `s`. */
  function FirstMatch(s: string, from: nat): (m: Option<Match>)
    requires from <= |s|
    ensures m.Some? ==> from <= m.value.pos && MatchAt(s, m.value.pos) == Some(m.value.len)
    ensures m.Some? ==> forall q: nat :: from <= q < m.value.pos ==> MatchAt(s, q).None?
    ensures m.None? ==> forall q: nat :: from <= q ==> MatchAt(s, q).None?
    decreases |s| - from
  {
    match MatchAt(s, from)
    case Some(n) => Some(Match(from, n))
    case None =>
      if from == |s| then
        assert forall q: nat :: from <= q ==> !OccursAt(s, q, Coder) && !OccursAt(s, q, Ui);
        None
      else FirstMatch(s, from + 1)
  }

  /** The grouping key of a message type. */
  function TypeKey(t: string): (k: string)
    ensures |k| == |t| || |k| == |t| - |Ui| || |k| == |t| - |Coder|
    ensures k == t <==> !HasMatch(t)
  {
    match FirstMatch(t, 0)
    case None =>
      assert !HasMatch(t) by {
        forall i: nat ensures !OccursAt(t, i, Coder) && !OccursAt(t, i, Ui) {
          assert MatchAt(t, i).None?;
        }
      }
      t
    case Some(m) => t[..m.pos] + t[m.pos + m.len..]
  }

  /** The key is the type with exactly its leftmost match removed. */
  lemma TypeKeyRemovesLeftmost(t: string, p: nat, n: nat)
    requires IsLeftmostMatch(t, p, n)
    ensures TypeKey(t) == t[..p] + t[p + n..]
  {
    assert MatchAt(t, p) == Some(n);
    assert FirstMatch(t, 0).Some?;
  }

  /** No match can start before the first underscore. */
  lemma NoMatchBeforeUnderscore(s: string, p: nat)
    requires p <= |s|
    requires forall q :: 0 <= q < p ==> s[q] != '_'
    ensures forall q: nat :: q < p ==> !OccursAt(s, q, Coder) && !OccursAt(s, q, Ui)
  {
    forall q: nat | q < p ensures !OccursAt(s, q, Coder) && !OccursAt(s, q, Ui) {
      if q + 3 <= |s| {
        assert s[q..q + 3][0] == s[q];
      }
    }
  }

  lemma FirstMatchIsUi()
    ensures IsLeftmostMatch("status_ui_coder", 6, |Ui|)
  {
    var t := "status_ui_coder";
    assert t[6..9] == Ui;
    NoMatchBeforeUnderscore(t, 6);
  }

  lemma FirstRewrite()
    ensures TypeKey("status_ui_coder") == "status_coder"
  {
    var t := "status_ui_coder";
    FirstMatchIsUi();
    TypeKeyRemovesLeftmost(t, 6, 3);
    assert t[..6] + t[9..] == "status_coder";
  }

  lemma SecondMatchIsCoder()
    ensures IsLeftmostMatch("status_coder", 6, |Coder|)
  {
    var u := "status_coder";
    assert u[6..12] == Coder;
    NoMatchBeforeUnderscore(u, 6);
  }

  lemma SecondRewrite()
    ensures TypeKey("status_coder") == "status"
  {
    var u := "status_coder";
    SecondMatchIsCoder();
    TypeKeyRemovesLeftmost(u, 6, 6);
    assert u[..6] + u[12..] == "status";
  }

  /** The rewrite is not idempotent: a second application can remove a second match. */
  lemma TypeKeyNotIdempotent()
    ensures TypeKey(TypeKey("status_ui_coder")) != TypeKey("status_ui_coder")
  {
    FirstRewrite();
    SecondRewrite();
  }
}
