/** Reading of provider status words (payment_hub/reconciliation.py and api_gateway/main.py). */
module KoraStatus {

  datatype Outcome = Succeeded | Refused | Intermediate

  /** Lower-casing of ASCII letters. No other character lower-cases to a letter of the words compared below. */
  function Lower(s: string): string {
    seq(|s|, i requires 0 <= i < |s| => LowerChar(s[i]))
  }

  function LowerChar(c: char): char {
    if 'A' <= c <= 'Z' then c - 'A' + 'a' else c
  }

  /** The characters str.strip removes. */
  predicate IsBlank(c: char) {
    || '\t' <= c <= '\r' || '\U{001C}' <= c <= ' ' || c == '\U{0085}' || c == '\U{00A0}' || c == '\U{1680}'
    || '\U{2000}' <= c <= '\U{200A}' || c in {'\U{2028}', '\U{2029}', '\U{202F}', '\U{205F}', '\U{3000}'}
  }

  /** Removal of leading and trailing blanks. */
  function Strip(s: string): string {
    if s != "" && IsBlank(s[0]) then Strip(s[1..])
    else if s != "" && IsBlank(s[|s| - 1]) then Strip(s[..|s| - 1])
    else s
  }

  const SUCCESS_STATUSES := {"success", "successful", "completed", "settled"}
  const FAILURE_STATUSES := {"failed", "cancelled", "canceled", "reversed"}

  function Classify(word: string): Outcome {
    if word in SUCCESS_STATUSES then Succeeded
    else if word in FAILURE_STATUSES then Refused
    else Intermediate
  }

  /** The webhook handlers lower-case the status but do not strip it. */
  function WebhookOutcome(status: string): Outcome {
    Classify(Lower(status))
  }

  /** status_of: the first of the two status fields that is present, stripped and lower-cased. */
  function StatusOf(status: string, paymentStatus: string): string {
    Lower(Strip(if status != "" then status else paymentStatus))
  }

  /** normalize_kora_status, on a word or on any padded spelling of it. */
  function NormalizeKoraStatus(raw: string): Outcome {
    Classify(Lower(Strip(raw)))
  }

  predicate IsRefundEvent(kind: string) {
    "refund" <= Lower(kind)
  }

  predicate IsPayoutEvent(kind: string) {
    || "transfer" <= Lower(kind)
    || "payout" <= Lower(kind)
    || "disbursement" <= Lower(kind)
  }

  // ----- What the words are -----

  /** s spells a lower-case word in any case. */
  predicate Spells(s: string, word: string) {
    && |s| == |word|
    && forall i | 0 <= i < |s| :: s[i] == word[i] || ('A' <= s[i] <= 'Z' && s[i] as int + 32 == word[i] as int)
  }

  predicate Begins(s: string, word: string) {
    |word| <= |s| && Spells(s[..|word|], word)
  }

  predicate IsLowerCase(word: string) {
    forall i | 0 <= i < |word| :: 'a' <= word[i] <= 'z'
  }

  lemma LowerSpells(s: string, word: string)
    requires IsLowerCase(word)
    ensures Lower(s) == word <==> Spells(s, word)
  {
    if Lower(s) == word {
      assert |Lower(s)| == |word|;
      forall i | 0 <= i < |s| ensures s[i] == word[i] || ('A' <= s[i] <= 'Z' && s[i] as int + 32 == word[i] as int) {
        assert Lower(s)[i] == word[i];
      }
    }
  }

  lemma LowerBegins(s: string, word: string)
    requires IsLowerCase(word)
    ensures word <= Lower(s) <==> Begins(s, word)
  {
    if |word| <= |s| {
      assert Lower(s)[..|word|] == Lower(s[..|word|]);
      LowerSpells(s[..|word|], word);
    }
  }

  /** The words of a success and of a refusal, in any case and with nothing around them. */
  predicate SpellsSuccess(s: string) {
    Spells(s, "success") || Spells(s, "successful") || Spells(s, "completed") || Spells(s, "settled")
  }

  predicate SpellsRefusal(s: string) {
    Spells(s, "failed") || Spells(s, "cancelled") || Spells(s, "canceled") || Spells(s, "reversed")
  }

  /** The webhook reads a status as a verdict exactly when it spells one of these words. */
  lemma WebhookReadsWords(status: string)
    ensures WebhookOutcome(status) == if SpellsSuccess(status) then Succeeded else if SpellsRefusal(status) then Refused else Intermediate
  {
    ClassifyReadsWords(status);
  }

  lemma ClassifyReadsWords(s: string)
    ensures Classify(Lower(s)) == if SpellsSuccess(s) then Succeeded else if SpellsRefusal(s) then Refused else Intermediate
  {
    LowerSpells(s, "success");
    LowerSpells(s, "successful");
    LowerSpells(s, "completed");
    LowerSpells(s, "settled");
    LowerSpells(s, "failed");
    LowerSpells(s, "cancelled");
    LowerSpells(s, "canceled");
    LowerSpells(s, "reversed");
  }

  /** No word is both. */
  lemma VerdictsAreDisjoint(s: string)
    ensures !(SpellsSuccess(s) && SpellsRefusal(s))
  {
    LowerSpells(s, "completed");
    LowerSpells(s, "cancelled");
    assert "completed"[1] != "cancelled"[1];
  }

  predicate BlankBetween(s: string, i: nat, j: nat) {
    forall k | i <= k < j && k < |s| :: IsBlank(s[k])
  }

  /** Strip keeps the part between the outer blanks. */
  lemma {:induction false} StripCore(s: string) returns (a: nat, b: nat)
    ensures a <= b <= |s| && Strip(s) == s[a..b]
    ensures BlankBetween(s, 0, a) && BlankBetween(s, b, |s|) && IsTrimmed(s[a..b])
    decreases |s|
  {
    StripTrims(s);
    if s != "" && IsBlank(s[0]) {
      var tail := s[1..];
      a, b := StripCore(tail);
      assert forall k | 1 <= k < |s| :: s[k] == tail[k - 1];
      assert tail[a..b] == s[a + 1..b + 1];
      a, b := a + 1, b + 1;
    } else if s != "" && IsBlank(s[|s| - 1]) {
      var init := s[..|s| - 1];
      a, b := StripCore(init);
      assert forall k | 0 <= k < |init| :: s[k] == init[k];
      assert init[a..b] == s[a..b];
    } else {
      a, b := 0, |s|;
      assert s == s[a..b];
    }
  }

  /** The characters that count as blank, one by one. */
  const BLANKS := "\t\n\U{000B}\U{000C}\r\U{001C}\U{001D}\U{001E}\U{001F} \U{0085}\U{00A0}\U{1680}\U{2000}\U{2001}\U{2002}\U{2003}\U{2004}\U{2005}\U{2006}\U{2007}\U{2008}\U{2009}\U{200A}\U{2028}\U{2029}\U{202F}\U{205F}\U{3000}"

  lemma BlankCharacters(c: char)
    ensures IsBlank(c) <==> c in BLANKS
  {
  }

  /** The worker's verdict is a word of the stripped status, or of the payment status where there is none. */
  lemma WorkerReadsWords(status: string, paymentStatus: string)
    ensures var word := Strip(if status != "" then status else paymentStatus);
            NormalizeKoraStatus(StatusOf(status, paymentStatus))
            == if SpellsSuccess(word) then Succeeded else if SpellsRefusal(word) then Refused else Intermediate
  {
    NormalizeIsStable(status, paymentStatus);
    ClassifyReadsWords(Strip(if status != "" then status else paymentStatus));
  }

  /** The kinds of events by the word they begin with, in any case. */
  lemma KindsByWord(kind: string)
    ensures IsRefundEvent(kind) <==> Begins(kind, "refund")
    ensures IsPayoutEvent(kind) <==> Begins(kind, "transfer") || Begins(kind, "payout") || Begins(kind, "disbursement")
  {
    LowerBegins(kind, "refund");
    LowerBegins(kind, "transfer");
    LowerBegins(kind, "payout");
    LowerBegins(kind, "disbursement");
  }

  // ----- The two readings of a status word -----

  predicate IsTrimmed(s: string) {
    s == "" || (!IsBlank(s[0]) && !IsBlank(s[|s| - 1]))
  }

  lemma {:induction false} StripTrims(s: string)
    ensures IsTrimmed(Strip(s))
    ensures Strip(s) == s <==> IsTrimmed(s)
    ensures |Strip(s)| <= |s|
    decreases |s|
  {
    if s != "" && IsBlank(s[0]) {
      StripTrims(s[1..]);
    } else if s != "" && IsBlank(s[|s| - 1]) {
      StripTrims(s[..|s| - 1]);
    }
  }

  lemma {:induction false} StripLower(s: string)
    ensures Strip(Lower(s)) == Lower(Strip(s))
    decreases |s|
  {
    if s != "" && IsBlank(s[0]) {
      assert Lower(s)[1..] == Lower(s[1..]);
      StripLower(s[1..]);
    } else if s != "" && IsBlank(s[|s| - 1]) {
      assert Lower(s)[..|s| - 1] == Lower(s[..|s| - 1]);
      StripLower(s[..|s| - 1]);
    }
  }

  lemma LowerTwice(s: string)
    ensures Lower(Lower(s)) == Lower(s)
  {
  }

  /** The worker normalizes a status it has already stripped and lower-cased; that changes nothing. */
  lemma NormalizeIsStable(status: string, paymentStatus: string)
    ensures NormalizeKoraStatus(StatusOf(status, paymentStatus)) == Classify(StatusOf(status, paymentStatus))
  {
    var raw := if status != "" then status else paymentStatus;
    StripTrims(raw);
    StripTrims(Strip(raw));
    StripLower(Strip(raw));
    LowerTwice(Strip(raw));
  }

  lemma VerdictsAreTrimmed(word: string)
    requires !Classify(word).Intermediate?
    ensures word != "" && IsTrimmed(word)
  {
  }

  /** A padded spelling is read alike if and only if it is no verdict once stripped. */
  lemma WordReadAlikeIff(status: string)
    ensures WebhookOutcome(status) == NormalizeKoraStatus(status)
       <==> IsTrimmed(status) || NormalizeKoraStatus(status).Intermediate?
  {
    StripTrims(status);
    if !WebhookOutcome(status).Intermediate? {
      WebhookVerdictIsTrimmed(status);
    }
  }

  lemma NormalizeTwice(status: string)
    ensures NormalizeKoraStatus(Lower(Strip(status))) == NormalizeKoraStatus(status)
  {
    NormalizeIsStable(status, status);
  }

  /** Webhook and worker read a payload alike if and only if its status carries no outer blanks or is no verdict once
      stripped, and, where there is no status, the payment status the worker falls back to is no verdict: the webhook
      reads neither a padded verdict nor the fallback. */
  lemma ReadersAgreeIff(status: string, paymentStatus: string)
    ensures WebhookOutcome(status) == NormalizeKoraStatus(StatusOf(status, paymentStatus))
       <==> if status != "" then IsTrimmed(status) || NormalizeKoraStatus(status).Intermediate?
            else NormalizeKoraStatus(paymentStatus).Intermediate?
  {
    NormalizeTwice(status);
    NormalizeTwice(paymentStatus);
    WordReadAlikeIff(status);
  }

  /** A success that only the worker sees: padded, or under the second field. */
  lemma ReadersDisagree()
    ensures WebhookOutcome(" success").Intermediate? && NormalizeKoraStatus(StatusOf(" success", "")).Succeeded?
    ensures WebhookOutcome("").Intermediate? && NormalizeKoraStatus(StatusOf("", "success")).Succeeded?
  {
    assert " success"[1..] == "success" && Strip(" success") == Strip("success") == "success";
    assert Lower("success") == "success";
    assert |Lower(" success")| == 8 && Lower(" success")[0] == ' ';
  }

  lemma WebhookVerdictIsTrimmed(status: string)
    requires !WebhookOutcome(status).Intermediate?
    ensures IsTrimmed(status)
  {
    VerdictsAreTrimmed(Lower(status));
    assert |Lower(status)| == |status|;
    assert !IsBlank(Lower(status)[0]) && !IsBlank(Lower(status)[|status| - 1]);
  }
}
