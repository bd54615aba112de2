/** payment_hub/support_ai.py:18 and 41-51, the redaction of incident contexts. */
module Redaction {
  import KoraStatus

  /** A context value. Mappings keep their insertion order. Numbers, booleans and nulls are opaque scalars. */
  datatype Value =
    | Mapping(fields: seq<Field>)
    | List(items: seq<Value>)
    | Tuple(parts: seq<Value>)
    | Text(text: string)
    | Scalar(n: int)

  datatype Field = Field(key: Key, value: Value)

  /** A mapping key by what str makes of it; `kind` tells apart keys spelled alike, zero being a text key. */
  datatype Key = Key(text: string, kind: nat)

  const REDACTED := Text("[REDACTED]")
  const ELLIPSIS := "\U{2026}"
  const LONGEST := 512

  // ----- Sensitive keys -----

  /** Case folding as the pattern's ignore-case flag applies it to the letters of the words below. */
  function Fold(c: char): char {
    if 'A' <= c <= 'Z' then c - 'A' + 'a'
    else if c == '\U{017F}' then 's'
    else if c == '\U{212A}' then 'k'
    else if c == '\U{0130}' || c == '\U{0131}' then 'i'
    else c
  }

  function FoldAll(s: string): string {
    seq(|s|, i requires 0 <= i < |s| => Fold(s[i]))
  }

  predicate Occurs(s: string, word: string, i: nat) {
    i + |word| <= |s| && s[i..i + |word|] == word
  }

  predicate Contains(s: string, word: string) {
    exists i | 0 <= i <= |s| :: Occurs(s, word, i)
  }

  const WORDS := ["secret", "token", "password", "pin", "otp", "authorization", "cookie", "apikey", "api_key", "api-key"]

  predicate Sensitive(key: string) {
    exists w | 0 <= w < |WORDS| :: Contains(FoldAll(key), WORDS[w])
  }

  /** A key is sensitive if and only if one of the words stands somewhere in it, in any case. */
  lemma SensitiveIffWordInside(key: string)
    ensures Sensitive(key) <==>
              exists before: string, word: string, after: string ::
                key == before + word + after
                && FoldAll(word) in ["secret", "token", "password", "pin", "otp", "authorization", "cookie", "apikey", "api_key", "api-key"]
  {
    if Sensitive(key) {
      SensitiveHasWord(key);
    }
    forall before: string, word: string, after: string | key == before + word + after && FoldAll(word) in WORDS ensures Sensitive(key) {
      WordIsSensitive(before, word, after);
    }
  }

  lemma SensitiveHasWord(key: string)
    requires Sensitive(key)
    ensures exists before: string, word: string, after: string :: key == before + word + after && FoldAll(word) in WORDS
  {
    var w :| 0 <= w < |WORDS| && Contains(FoldAll(key), WORDS[w]);
    var i :| 0 <= i <= |key| && Occurs(FoldAll(key), WORDS[w], i);
    var n := i + |WORDS[w]|;
    assert key == key[..i] + key[i..n] + key[n..];
    assert FoldAll(key[i..n]) == FoldAll(key)[i..n] == WORDS[w];
  }

  lemma WordIsSensitive(before: string, word: string, after: string)
    requires FoldAll(word) in WORDS
    ensures Sensitive(before + word + after)
  {
    var key := before + word + after;
    var w :| 0 <= w < |WORDS| && WORDS[w] == FoldAll(word);
    assert FoldAll(key)[|before|..|before| + |word|] == FoldAll(word);
    assert Occurs(FoldAll(key), WORDS[w], |before|);
  }

  /** The letters of a word match in either case, and the long s, the Kelvin sign and the two foreign i match theirs. */
  lemma WordInAnyCase(before: string, word: string, after: string, plain: string)
    requires plain in WORDS && KoraStatus.Spells(word, plain)
    ensures Sensitive(before + word + after)
  {
    assert FoldAll(word) == plain;
    SensitiveIffWordInside(before + word + after);
  }

  lemma FoldedLetters()
    ensures Fold('\U{017F}') == 's' && Fold('\U{212A}') == 'k' && Fold('\U{0130}') == 'i' && Fold('\U{0131}') == 'i'
    ensures forall c: char :: Fold(c) != c <==> 'A' <= c <= 'Z' || c in {'\U{017F}', '\U{212A}', '\U{0130}', '\U{0131}'}
  {
  }

  // ----- _sanitize -----

  function Clip(s: string): string {
    if |s| > LONGEST then s[..LONGEST] + ELLIPSIS else s
  }

  function Sanitize(v: Value): Value
    decreases v, 0
  {
    match v
    case Mapping(fields) => Mapping(SanitizeFields(fields))
    case List(items) => List(SanitizeItems(items))
    case Tuple(parts) => List(SanitizeItems(parts))
    case Text(text) => Text(Clip(text))
    case Scalar(_) => v
  }

  function SanitizeItems(vs: seq<Value>): (r: seq<Value>)
    ensures |r| == |vs|
    decreases vs, 0
  {
    if vs == [] then [] else [Sanitize(vs[0])] + SanitizeItems(vs[1..])
  }

  predicate Spelled(fs: seq<Field>, k: string) {
    exists i | 0 <= i < |fs| :: fs[i].key.text == k
  }

  /** The spellings of the keys in order of first appearance: the keys of a comprehension over str(key). */
  function Spellings(fs: seq<Field>): (r: seq<string>)
    ensures forall k :: k in r <==> Spelled(fs, k)
    ensures forall i | 0 <= i < |r| :: Spelled(fs, r[i])
    ensures forall i, j | 0 <= i < j < |r| :: r[i] != r[j]
  {
    if fs == [] then []
    else
      var init, k := Spellings(fs[..|fs| - 1]), fs[|fs| - 1].key.text;
      assert fs == fs[..|fs| - 1] + [fs[|fs| - 1]];
      if k in init then init else init + [k]
  }

  /** The field a comprehension keeps for a spelling: the last one. */
  function LastOf(fs: seq<Field>, k: string): (i: nat)
    requires Spelled(fs, k)
    ensures i < |fs| && fs[i].key.text == k && forall j | i < j < |fs| :: fs[j].key.text != k
  {
    if fs[|fs| - 1].key.text == k then |fs| - 1 else LastOf(fs[..|fs| - 1], k)
  }

  function SanitizeField(f: Field): (r: Field)
    ensures r.key == Key(f.key.text, 0)
    decreases f, 0
  {
    Field(Key(f.key.text, 0), if Sensitive(f.key.text) then REDACTED else Sanitize(f.value))
  }

  /** Keys that str spells alike share one field of the result. */
  function SanitizeFields(fs: seq<Field>): (r: seq<Field>)
    ensures |r| == |Spellings(fs)| && forall i | 0 <= i < |r| :: r[i].key == Key(Spellings(fs)[i], 0)
    decreases fs, 0
  {
    var ks := Spellings(fs);
    seq(|ks|, i requires 0 <= i < |ks| => SanitizeField(fs[LastOf(fs, ks[i])]))
  }

  /** Assignment to a dictionary: in place if the key is there, else at the end. */
  function Assign(fs: seq<Field>, f: Field): seq<Field> {
    if exists i | 0 <= i < |fs| :: fs[i].key == f.key then
      seq(|fs|, i requires 0 <= i < |fs| => if fs[i].key == f.key then f else fs[i])
    else fs + [f]
  }

  lemma LastOfOther(fs: seq<Field>, f: Field, k: string)
    requires k != f.key.text && Spelled(fs, k)
    ensures Spelled(fs + [f], k) && LastOf(fs + [f], k) == LastOf(fs, k)
  {
    var all := fs + [f];
    var i := LastOf(fs, k);
    assert all[i].key.text == k && all[|fs|] == f;
    var j := LastOf(all, k);
    assert j < |fs| && all[j] == fs[j];
    assert !(i < j) && !(j < i);
  }

  lemma SpellingsAppend(fs: seq<Field>, f: Field)
    ensures Spellings(fs + [f]) == if f.key.text in Spellings(fs) then Spellings(fs) else Spellings(fs) + [f.key.text]
  {
    assert (fs + [f])[..|fs|] == fs;
  }

  lemma LastOfAppended(fs: seq<Field>, f: Field)
    ensures Spelled(fs + [f], f.key.text) && LastOf(fs + [f], f.key.text) == |fs|
  {
    assert (fs + [f])[|fs|] == f;
  }

  /** The comprehension builds its result one assignment at a time. */
  lemma SanitizeFieldsAssigns(fs: seq<Field>, f: Field)
    ensures SanitizeFields([]) == [] && SanitizeFields(fs + [f]) == Assign(SanitizeFields(fs), SanitizeField(f))
  {
    var all, k := fs + [f], f.key.text;
    var ks := Spellings(fs);
    SpellingsAppend(fs, f);
    LastOfAppended(fs, f);
    var before, after := SanitizeFields(fs), SanitizeFields(all);
    forall i | 0 <= i < |ks| ensures after[i] == if before[i].key == SanitizeField(f).key then SanitizeField(f) else before[i] {
      AssignedAt(fs, f, i);
    }
    if k in ks {
      var i :| 0 <= i < |ks| && ks[i] == k;
      assert before[i].key == SanitizeField(f).key;
    } else {
      assert after[|ks|] == SanitizeField(f);
    }
    IsAssigned(before, SanitizeField(f), after);
  }

  lemma IsAssigned(before: seq<Field>, f: Field, after: seq<Field>)
    requires |before| <= |after|
    requires forall i | 0 <= i < |before| :: after[i] == if before[i].key == f.key then f else before[i]
    requires if exists i | 0 <= i < |before| :: before[i].key == f.key then |after| == |before|
             else |after| == |before| + 1 && after[|before|] == f
    ensures after == Assign(before, f)
  {
  }

  /** The fields the comprehension had so far: kept, or replaced by the new one. */
  lemma AssignedAt(fs: seq<Field>, f: Field, i: nat)
    requires i < |Spellings(fs)|
    ensures i < |Spellings(fs + [f])|
    ensures SanitizeFields(fs + [f])[i] == if Spellings(fs)[i] == f.key.text then SanitizeField(f) else SanitizeFields(fs)[i]
  {
    SpellingsAppend(fs, f);
    if Spellings(fs)[i] == f.key.text {
      LastOfAppended(fs, f);
    } else {
      LastOfOther(fs, f, Spellings(fs)[i]);
    }
  }

  // ----- Indistinguishable contexts -----

  predicate SameText(s: string, t: string) {
    s == t || (|s| > LONGEST && |t| > LONGEST && s[..LONGEST] == t[..LONGEST])
  }

  predicate IsSequence(v: Value) {
    v.List? || v.Tuple?
  }

  function Elements(v: Value): seq<Value>
    requires IsSequence(v)
  {
    if v.List? then v.items else v.parts
  }

  /** Equal up to what lies under sensitive keys, at any depth, up to what follows the 512th character of a text, and
      up to lists written as tuples, keys that str spells alike and fields that a later one of those replaces. */
  predicate Alike(v: Value, w: Value)
    decreases v, 0
  {
    match v
    case Mapping(fields) => w.Mapping? && AlikeFields(fields, w.fields)
    case List(items) => IsSequence(w) && AlikeItems(items, Elements(w))
    case Tuple(parts) => IsSequence(w) && AlikeItems(parts, Elements(w))
    case Text(text) => w.Text? && SameText(text, w.text)
    case Scalar(_) => v == w
  }

  predicate AlikeItems(vs: seq<Value>, ws: seq<Value>)
    decreases vs, 0
  {
    |vs| == |ws| && (vs != [] ==> Alike(vs[0], ws[0]) && AlikeItems(vs[1..], ws[1..]))
  }

  predicate AlikeField(f: Field, g: Field)
    decreases f, 0
  {
    f.key.text == g.key.text && (Sensitive(f.key.text) || Alike(f.value, g.value))
  }

  predicate AlikeFields(fs: seq<Field>, gs: seq<Field>)
    decreases fs, 0
  {
    && Spellings(fs) == Spellings(gs)
    && forall k | k in Spellings(fs) :: AlikeField(fs[LastOf(fs, k)], gs[LastOf(gs, k)])
  }

  lemma ClipSame(s: string, t: string)
    ensures Clip(s) == Clip(t) <==> SameText(s, t)
  {
    if |s| > LONGEST && |t| > LONGEST {
      assert Clip(s)[..LONGEST] == s[..LONGEST] && Clip(t)[..LONGEST] == t[..LONGEST];
    }
  }

  /** Two contexts sanitize to the same result if and only if they are alike: nothing under a sensitive key, at any
      depth, influences the result, and nothing else is lost but clipped text and the tuple spelling. */
  lemma {:induction false} SanitizeHidesExactlySecrets(v: Value, w: Value)
    ensures Sanitize(v) == Sanitize(w) <==> Alike(v, w)
    decreases v, 0
  {
    match v {
      case Mapping(fields) =>
        if w.Mapping? {
          FieldsHideExactlySecrets(fields, w.fields);
        }
      case List(items) =>
        if IsSequence(w) {
          ItemsHideExactlySecrets(items, Elements(w));
        }
      case Tuple(parts) =>
        if IsSequence(w) {
          ItemsHideExactlySecrets(parts, Elements(w));
        }
      case Text(text) =>
        if w.Text? {
          ClipSame(text, w.text);
        }
      case Scalar(_) =>
    }
  }

  lemma ConsEqual<T>(x: T, xs: seq<T>, y: T, ys: seq<T>)
    ensures [x] + xs == [y] + ys <==> x == y && xs == ys
  {
    assert ([x] + xs)[0] == x && ([y] + ys)[0] == y;
    assert ([x] + xs)[1..] == xs && ([y] + ys)[1..] == ys;
  }

  lemma {:induction false} ItemsHideExactlySecrets(vs: seq<Value>, ws: seq<Value>)
    ensures SanitizeItems(vs) == SanitizeItems(ws) <==> AlikeItems(vs, ws)
    decreases vs, 0
  {
    if |vs| == |ws| && vs != [] {
      SanitizeHidesExactlySecrets(vs[0], ws[0]);
      ItemsHideExactlySecrets(vs[1..], ws[1..]);
      ConsEqual(Sanitize(vs[0]), SanitizeItems(vs[1..]), Sanitize(ws[0]), SanitizeItems(ws[1..]));
    }
  }

  lemma {:induction false} FieldHidesExactlySecrets(f: Field, g: Field)
    ensures SanitizeField(f) == SanitizeField(g) <==> AlikeField(f, g)
    decreases f, 0
  {
    SanitizeHidesExactlySecrets(f.value, g.value);
  }

  lemma {:induction false} FieldsHideExactlySecrets(fs: seq<Field>, gs: seq<Field>)
    ensures SanitizeFields(fs) == SanitizeFields(gs) <==> AlikeFields(fs, gs)
    decreases fs, 0
  {
    var ks, hs := Spellings(fs), Spellings(gs);
    var x, y := SanitizeFields(fs), SanitizeFields(gs);
    if x == y {
      assert forall i | 0 <= i < |ks| :: x[i].key == Key(ks[i], 0) && y[i].key == Key(hs[i], 0);
      assert ks == hs;
    }
    if ks == hs {
      forall i | 0 <= i < |ks| ensures x[i] == y[i] <==> AlikeField(fs[LastOf(fs, ks[i])], gs[LastOf(gs, ks[i])]) {
        FieldHidesExactlySecrets(fs[LastOf(fs, ks[i])], gs[LastOf(gs, ks[i])]);
      }
      if AlikeFields(fs, gs) {
        assert x == y;
      }
      if x == y {
        forall k | k in ks ensures AlikeField(fs[LastOf(fs, k)], gs[LastOf(gs, k)]) {
          var i :| 0 <= i < |ks| && ks[i] == k;
          assert x[i] == y[i];
        }
      }
    }
  }

  // ----- Clean results -----

  predicate TextKeys(fs: seq<Field>) {
    && (forall i | 0 <= i < |fs| :: fs[i].key.kind == 0)
    && forall i, j | 0 <= i < j < |fs| :: fs[i].key != fs[j].key
  }

  /** Text keys only, nothing but the mark under a sensitive one, no text longer than a clipped one, no tuple. */
  predicate Clean(v: Value)
    decreases v
  {
    match v
    case Mapping(fields) =>
      && TextKeys(fields)
      && forall i | 0 <= i < |fields| ::
           if Sensitive(fields[i].key.text) then fields[i].value == REDACTED else Clean(fields[i].value)
    case List(items) => forall i | 0 <= i < |items| :: Clean(items[i])
    case Tuple(_) => false
    case Text(text) => |text| <= LONGEST || (|text| == LONGEST + 1 && text[LONGEST..] == ELLIPSIS)
    case Scalar(_) => true
  }

  lemma {:induction false} ItemsAt(vs: seq<Value>, i: nat)
    requires i < |vs|
    ensures SanitizeItems(vs)[i] == Sanitize(vs[i])
    decreases vs
  {
    if i > 0 {
      ItemsAt(vs[1..], i - 1);
    }
  }

  /** With distinct text keys every field stays in its place. */
  lemma {:induction false} FieldsAt(fs: seq<Field>)
    requires TextKeys(fs)
    ensures |Spellings(fs)| == |fs| && forall i | 0 <= i < |fs| :: Spellings(fs)[i] == fs[i].key.text
    ensures forall i | 0 <= i < |fs| :: LastOf(fs, fs[i].key.text) == i
  {
    if fs != [] {
      var init, n := fs[..|fs| - 1], |fs| - 1;
      FieldsAt(init);
      assert forall i | 0 <= i < n :: init[i] == fs[i] && fs[i].key.text != fs[n].key.text;
    }
    forall i | 0 <= i < |fs| ensures LastOf(fs, fs[i].key.text) == i {
      var j := LastOf(fs, fs[i].key.text);
      assert fs[j].key == fs[i].key;
    }
  }

  /** Every result is clean, at every depth. */
  lemma {:induction false} SanitizeCleans(v: Value)
    ensures Clean(Sanitize(v))
    decreases v
  {
    match v {
      case Mapping(fields) =>
        var r, ks := SanitizeFields(fields), Spellings(fields);
        forall i | 0 <= i < |r| ensures if Sensitive(r[i].key.text) then r[i].value == REDACTED else Clean(r[i].value) {
          var last := LastOf(fields, ks[i]);
          assert r[i] == SanitizeField(fields[last]);
          SanitizeCleans(fields[last].value);
        }
        assert TextKeys(r);
      case List(items) =>
        forall i | 0 <= i < |items| ensures Clean(SanitizeItems(items)[i]) {
          ItemsAt(items, i);
          SanitizeCleans(items[i]);
        }
      case Tuple(parts) =>
        forall i | 0 <= i < |parts| ensures Clean(SanitizeItems(parts)[i]) {
          ItemsAt(parts, i);
          SanitizeCleans(parts[i]);
        }
      case Text(text) =>
      case Scalar(_) =>
    }
  }

  /** Sanitizing changes nothing if and only if the value is clean already. */
  lemma {:induction false} SanitizeFixesCleanOnly(v: Value)
    ensures Sanitize(v) == v <==> Clean(v)
    decreases v
  {
    if Sanitize(v) == v {
      SanitizeCleans(v);
    }
    if Clean(v) {
      match v {
        case Mapping(fields) =>
          FieldsAt(fields);
          forall i | 0 <= i < |fields| ensures SanitizeFields(fields)[i] == fields[i] {
            SanitizeFixesCleanOnly(fields[i].value);
          }
          assert SanitizeFields(fields) == fields;
        case List(items) =>
          forall i | 0 <= i < |items| ensures SanitizeItems(items)[i] == items[i] {
            ItemsAt(items, i);
            SanitizeFixesCleanOnly(items[i]);
          }
          assert SanitizeItems(items) == items;
        case Text(text) =>
          assert |text| > LONGEST ==> text == text[..LONGEST] + text[LONGEST..];
        case _ =>
      }
    }
  }

  /** Sanitizing twice is sanitizing once, the added ellipsis included. */
  lemma SanitizeIsIdempotent(v: Value)
    ensures Sanitize(Sanitize(v)) == Sanitize(v)
  {
    SanitizeCleans(v);
    SanitizeFixesCleanOnly(Sanitize(v));
  }

  /** A text of up to 512 characters stays; of a longer one the first 512 stay, followed by an ellipsis. */
  lemma ClippedText(s: string)
    ensures |s| <= 512 ==> Sanitize(Text(s)) == Text(s)
    ensures |s| > 512 ==> Sanitize(Text(s)) == Text(s[..512] + "\U{2026}")
  {
  }

  /** Whatever a field holds, under a sensitive key the result holds the mark. */
  lemma SecretIsMarked(f: Field)
    requires Sensitive(f.key.text)
    ensures SanitizeField(f) == Field(Key(f.key.text, 0), Text("[REDACTED]"))
  {
  }
}
