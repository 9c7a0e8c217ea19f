/**
 * Which messages supersede a run, in terms of their text (apps/api/src/durable-objects/conversation-session-logic.ts:13-28 and
 * apps/api/src/durable-objects/conversation-session.ts:197-205).
 */
module Corrections {
  import opened Wrappers
  import opened JsText
  import opened ConversationSession
  import opened SessionRuns

  /** The letter itself or its capital. */
  predicate EitherCase(c: char, letter: char) {
    c == letter || ('a' <= letter <= 'z' && c as int + 32 == letter as int)
  }

  predicate Spells(word: string, phrase: string) {
    |word| == |phrase| && forall i | 0 <= i < |phrase| :: EitherCase(word[i], phrase[i])
  }

  /** After `k` blanks the text goes on with the phrase, in letters of either case. */
  predicate OpensAt(text: string, k: nat, phrase: string) {
    k + |phrase| <= |text| && AllBlank(text[..k], BlankChar) && Spells(text[k..k + |phrase|], phrase)
  }

  ghost predicate OpensWith(text: string, phrase: string) {
    exists k: nat :: OpensAt(text, k, phrase)
  }

  /** The text opens, after any white space, with one of the eight phrases. */
  ghost predicate ReadsAsCorrection(text: string) {
    || OpensWith(text, "wait") || OpensWith(text, "actually") || OpensWith(text, "sorry") || OpensWith(text, "i meant")
    || OpensWith(text, "ignore that") || OpensWith(text, "correction") || OpensWith(text, "to clarify") || OpensWith(text, "instead")
  }

  predicate IsSmall(c: char) {
    'a' <= c <= 'z'
  }

  /** Small letters and spaces, with a letter at either end. */
  predicate IsPhrase(phrase: string) {
    && phrase != [] && IsSmall(phrase[0]) && IsSmall(phrase[|phrase| - 1])
    && forall i | 0 <= i < |phrase| :: IsSmall(phrase[i]) || phrase[i] == ' '
  }

  lemma LowerIs(c: char, p: char)
    requires IsSmall(p) || p == ' '
    ensures LowerChar(c) == p <==> EitherCase(c, p)
    ensures EitherCase(c, p) && IsSmall(p) ==> !BlankChar(c)
  {
  }

  lemma BlankAt(s: string, a: nat, b: nat)
    requires a <= b <= |s| && AllBlank(s[a..b], BlankChar)
    ensures forall i | a <= i < b :: BlankChar(s[i])
  {
    forall i | a <= i < b ensures BlankChar(s[i]) {
      assert s[a..b][i - a] == s[i];
    }
  }

  /** What is left of a text by trimming it: it begins after the leading blanks, and only blanks are lost at its end. */
  lemma TrimIsMiddle(s: string) returns (n: nat)
    ensures n + |Trim(s)| <= |s| && AllBlank(s[..n], BlankChar) && (n < |s| ==> !BlankChar(s[n]))
    ensures Trim(s) == s[n..n + |Trim(s)|] && AllBlank(s[n + |Trim(s)|..], BlankChar)
  {
    n := LeadingBlanks(s, BlankChar);
    var left := TrimStart(s, BlankChar);
    assert left == s[n..];
    var t := TrimEnd(left, BlankChar);
    assert left[|t|..] == s[n + |t|..];
    assert t == left[..|t|] == s[n..n + |t|];
  }

  lemma PhraseOpens(s: string, phrase: string)
    requires IsPhrase(phrase)
    ensures phrase <= LowerCase(Trim(s)) <==> OpensWith(s, phrase)
  {
    var n := TrimIsMiddle(s);
    var t := Trim(s);
    if phrase <= LowerCase(t) {
      forall i | 0 <= i < |phrase| ensures EitherCase(s[n..n + |phrase|][i], phrase[i]) {
        LowerIs(t[i], phrase[i]);
        assert LowerCase(t)[i] == phrase[i] && t[i] == s[n + i];
      }
      assert OpensAt(s, n, phrase);
    }
    if k: nat :| OpensAt(s, k, phrase) {
      OpensAtStart(s, k, phrase, n);
      forall i | 0 <= i < |phrase| ensures i < |t| && LowerCase(t)[i] == phrase[i] {
        assert s[n..n + |phrase|][i] == s[n + i] == t[i];
        LowerIs(t[i], phrase[i]);
      }
    }
  }

  /** A phrase begins where the blanks end, and ends before the trailing ones. */
  lemma OpensAtStart(s: string, k: nat, phrase: string, n: nat)
    requires IsPhrase(phrase) && OpensAt(s, k, phrase)
    requires n + |Trim(s)| <= |s| && AllBlank(s[..n], BlankChar) && (n < |s| ==> !BlankChar(s[n]))
    requires Trim(s) == s[n..n + |Trim(s)|] && AllBlank(s[n + |Trim(s)|..], BlankChar)
    ensures k == n && |phrase| <= |Trim(s)|
  {
    var last := |phrase| - 1;
    assert s[k..k + |phrase|][0] == s[k] && s[k..k + |phrase|][last] == s[k + last];
    LowerIs(s[k], phrase[0]);
    LowerIs(s[k + last], phrase[last]);
    InkBounds(s, n, n + |Trim(s)|, k, |phrase|);
  }

  /** Ink from `k` on, after blanks only, lies where the ink of the text lies. */
  lemma InkBounds(s: string, n: nat, end: nat, k: nat, size: nat)
    requires n <= end <= |s| && AllBlank(s[..n], BlankChar) && (n < |s| ==> !BlankChar(s[n])) && AllBlank(s[end..], BlankChar)
    requires size > 0 && k + size <= |s| && AllBlank(s[..k], BlankChar) && !BlankChar(s[k]) && !BlankChar(s[k + size - 1])
    ensures k == n && k + size <= end
  {
    BlankAt(s, 0, n);
    BlankAt(s, 0, k);
    assert s[end..] == s[end..|s|];
    BlankAt(s, end, |s|);
  }

  lemma PrefixesArePhrases()
    ensures IsPhrase("wait") && IsPhrase("actually") && IsPhrase("sorry") && IsPhrase("i meant")
    ensures IsPhrase("ignore that") && IsPhrase("correction") && IsPhrase("to clarify") && IsPhrase("instead")
  {
  }

  /** A message is a correction exactly when its text opens, after any white space, with one of the phrases in any letters. */
  lemma CorrectionExactlyWhen(m: Message)
    ensures IsCorrectionMessage(m) <==> ReadsAsCorrection(m.textSummary)
  {
    var s := m.textSummary;
    PrefixesArePhrases();
    PhraseOpens(s, "wait");
    PhraseOpens(s, "actually");
    PhraseOpens(s, "sorry");
    PhraseOpens(s, "i meant");
    PhraseOpens(s, "ignore that");
    PhraseOpens(s, "correction");
    PhraseOpens(s, "to clarify");
    PhraseOpens(s, "instead");
    AnyPrefix(LowerCase(Trim(s)));
  }

  lemma AnyPrefix(text: string)
    ensures (text != "" && exists prefix | prefix in CORRECTION_PREFIXES :: prefix <= text) <==>
            || "wait" <= text || "actually" <= text || "sorry" <= text || "i meant" <= text
            || "ignore that" <= text || "correction" <= text || "to clarify" <= text || "instead" <= text
  {
    var c := CORRECTION_PREFIXES;
    assert c[0] == "wait" && c[1] == "actually" && c[2] == "sorry" && c[3] == "i meant";
    assert c[4] == "ignore that" && c[5] == "correction" && c[6] == "to clarify" && c[7] == "instead" && |c| == 8;
    assert c[0] in c && c[1] in c && c[2] in c && c[3] in c && c[4] in c && c[5] in c && c[6] in c && c[7] in c;
  }

  /** White space alone is no correction. */
  lemma BlankIsNone(m: Message)
    requires AllBlank(m.textSummary, BlankChar)
    ensures !IsCorrectionMessage(m)
  {
    assert LeadingBlanks(m.textSummary, BlankChar) == |m.textSummary|;
    assert Trim(m.textSummary) == "";
  }

  /**
   * After any run, a message that reaches an execution supersedes it exactly when nothing has been sent and the text reads as a
   * correction, the first one setting the time; any other message counts as a follow-up, and nothing else of the execution changes.
   */
  lemma SupersedesExactlyWhen(events: seq<Event>, m: Message, chatId: int, now: int)
    requires Run(events).Some? && Enabled(Run(events).value, Ingest(m, chatId, now))
    requires Run(events).value.session.phase.Executing?
    ensures var (p, p') := (Run(events).value.session.phase, OnIngest(Run(events).value, m, chatId, now).session.phase);
            && p'.Executing? && p'.token == p.token && p'.inFlight == p.inFlight && p'.claimedAt == p.claimedAt
            && (p.claimedAt.None? && ReadsAsCorrection(m.textSummary) ==>
                  p'.followups == p.followups && p'.supersededAt == if p.supersededAt.Some? then p.supersededAt else Some(now))
            && (!(p.claimedAt.None? && ReadsAsCorrection(m.textSummary)) ==>
                  p'.followups == p.followups + 1 && p'.supersededAt == p.supersededAt)
  {
    CorrectionExactlyWhen(m);
  }
}
