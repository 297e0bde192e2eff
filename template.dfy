/**
 * The countdown message template: `init` renders the dialog text with
 * `countdownMessage.replace('{countdown}', '<span class="countdown-timer"></span>')`.
 * With a string pattern, `String.prototype.replace` replaces the FIRST occurrence only
 * (the replacement text holds no `$`, so no replacement patterns apply).
 */
module Template {
  import opened Wrappers
  import Config

  const Placeholder: string := "{countdown}"
  const TimerSpan: string := "<span class=\"countdown-timer\"></span>"

  /** `pat` occurs in `s` starting at index `i`. */
  predicate MatchAt(s: string, pat: string, i: int) {
    0 <= i && i + |pat| <= |s| && s[i..i + |pat|] == pat
  }

  /** The first index at or after `from` where `pat` occurs in `s`. */
  function IndexFrom(s: string, pat: string, from: nat): (r: Option<nat>)
    requires from <= |s|
    ensures r.Some? ==> from <= r.value && MatchAt(s, pat, r.value)
    ensures r.Some? ==> forall j :: from <= j < r.value ==> !MatchAt(s, pat, j)
    ensures r.None? ==> forall j :: from <= j ==> !MatchAt(s, pat, j)
    decreases |s| - from
  {
    if MatchAt(s, pat, from) then Some(from)
    else if from == |s| then None
    else IndexFrom(s, pat, from + 1)
  }

  /** `s.indexOf(pat)`, with `None` for -1. */
  function IndexOf(s: string, pat: string): Option<nat> {
    IndexFrom(s, pat, 0)
  }

  /**
   * `s.replace(pat, rep)` for a string pattern: the text up to the first occurrence,
   * then `rep`, then the text after that occurrence; `s` itself when there is none.
   */
  function ReplaceFirst(s: string, pat: string, rep: string): (r: string)
    ensures (forall j :: !MatchAt(s, pat, j)) ==> r == s
    ensures (exists j :: MatchAt(s, pat, j)) ==> |r| == |s| - |pat| + |rep|
  {
    match IndexOf(s, pat)
    case None => s
    case Some(i) => s[..i] + rep + s[i + |pat|..]
  }

  /** Where the first occurrence is and what the rendered text is made of around it. */
  lemma ReplaceFirstShape(s: string, pat: string, rep: string, i: nat)
    requires MatchAt(s, pat, i)
    requires forall j :: 0 <= j < i ==> !MatchAt(s, pat, j)
    ensures ReplaceFirst(s, pat, rep) == s[..i] + rep + s[i + |pat|..]
  {
  }

  /** The replacement text appears where the first occurrence stood. */
  lemma ReplaceFirstInserts(s: string, pat: string, rep: string)
    requires IndexOf(s, pat).Some?
    ensures MatchAt(ReplaceFirst(s, pat, rep), rep, IndexOf(s, pat).value)
  {
    var i := IndexOf(s, pat).value;
    var r := ReplaceFirst(s, pat, rep);
    assert r[i..i + |rep|] == rep;
  }

  /**
   * Only the first occurrence is replaced: an occurrence that starts after the first
   * one ends survives, shifted by the difference in length.
   */
  lemma ReplaceFirstKeepsLater(s: string, pat: string, rep: string, j: int)
    requires IndexOf(s, pat).Some?
    requires MatchAt(s, pat, j) && j >= IndexOf(s, pat).value + |pat|
    ensures MatchAt(ReplaceFirst(s, pat, rep), pat, j - |pat| + |rep|)
  {
    var i := IndexOf(s, pat).value;
    var r := ReplaceFirst(s, pat, rep);
    var j' := j - |pat| + |rep|;
    assert r[i + |rep|..] == s[i + |pat|..];
    assert r[j'..j' + |pat|] == s[i + |pat|..][j - (i + |pat|)..j - (i + |pat|) + |pat|];
  }

  /** Text before the first occurrence is copied unchanged. */
  lemma ReplaceFirstKeepsPrefix(s: string, pat: string, rep: string, k: int)
    requires 0 <= k
    requires IndexOf(s, pat).None? || k < IndexOf(s, pat).value
    requires k < |s|
    ensures k < |ReplaceFirst(s, pat, rep)| && ReplaceFirst(s, pat, rep)[k] == s[k]
  {
  }

  /** The default message holds the placeholder, so the default dialog gets a timer element. */
  lemma DefaultMessagePlaceholder()
    ensures MatchAt(Config.DefaultMessage, Placeholder, 44)
    ensures IndexOf(Config.DefaultMessage, Placeholder).Some?
  {
    var s := Config.DefaultMessage;
    assert s[44..55] == Placeholder;
    assert IndexFrom(s, Placeholder, 44).Some?;
  }
}
