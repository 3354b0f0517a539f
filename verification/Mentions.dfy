/** Completing and recognising `@Full Name` mentions in a comment. */
module Mentions {
  import opened Optional

  /** What `\s` matches. */
  predicate IsSpace(c: char) {
    || '\t' <= c <= '\r' || c == ' ' || c == '\U{00A0}' || c == '\U{1680}' || '\U{2000}' <= c <= '\U{200A}'
    || c in {'\U{2028}', '\U{2029}', '\U{202F}', '\U{205F}', '\U{3000}', '\U{FEFF}'}
  }

  // ---------- Typing a mention ----------

  /** All that matters of letters, numbers, underscore and hyphen. */
  ghost predicate WordClass(word: char -> bool) { forall c :: word(c) ==> c != '@' && !IsSpace(c) }

  predicate AllWord(word: char -> bool, s: string) { forall i | 0 <= i < |s| :: word(s[i]) }

  function Least(a: int, b: int): int { if a < b then a else b }

  function Before(text: string, caret: nat): string { text[..Least(caret, |text|)] }

  function After(text: string, caret: nat): string { text[Least(caret, |text|)..] }

  /** At the start or after a space. */
  predicate Live(s: string, i: nat)
    requires i <= |s|
  {
    i == 0 || IsSpace(s[i - 1])
  }

  function LastIndexOf(s: string, c: char): (i: int)
    ensures -1 <= i < |s|
    ensures i >= 0 ==> s[i] == c
    ensures forall k | i < k < |s| :: s[k] != c
  {
    if s == [] then -1 else if s[|s| - 1] == c then |s| - 1 else LastIndexOf(s[..|s| - 1], c)
  }

  /** The pattern allows no second `@` up to the end, so only the last one can start a match. */
  function ExtractMentionToken(word: char -> bool, text: string, caret: nat): Option<string> {
    var before := Before(text, caret);
    var start := LastIndexOf(before, '@');
    if start < 0 || !Live(before, start) || !AllWord(word, before[start + 1..]) then None
    else if After(text, caret) != [] then None
    else
      var token := before[start + 1..];
      if token == [] && before[|before| - 1] != '@' then None else Some(token)
  }

  datatype Completion = Completion(text: string, caret: nat, inserted: string)

  function ApplyMentionCompletion(text: string, caret: nat, fullName: string): Completion {
    var before := Before(text, caret);
    var start := LastIndexOf(before[..Least(|before|, if caret == 0 then 1 else caret)], '@');
    if start < 0 then Completion(text, caret, "")
    else
      var inserted := "@" + fullName + " ";
      Completion(text[..start] + inserted + After(text, caret), start + |inserted|, inserted)
  }

  // ---------- Recognising a mention ----------

  predicate Ends(rest: string) { rest == [] || IsSpace(rest[0]) || rest[0] in ",.;:!?" }

  predicate Follows(s: string, name: string) { name <= s && Ends(s[|name|..]) }

  /** `s` starts with this mention. */
  predicate Mention(s: string, name: string) { s != [] && s[0] == '@' && Follows(s[1..], name) }

  predicate BodyMentionsFullName(body: string, fullName: string) {
    fullName != [] && exists i | 0 <= i < |body| :: Live(body, i) && Mention(body[i..], fullName)
  }

  const SYNTAX := ".*+?^${}()|[]\\"

  function Escape(name: string): string {
    if name == [] then [] else (if name[0] in SYNTAX then ['\\', name[0]] else [name[0]]) + Escape(name[1..])
  }

  /** The text a pattern matches when it consists of literal characters only. */
  function Literals(pattern: string): Option<string>
    decreases |pattern|
  {
    if pattern == [] then Some([])
    else if pattern[0] == '\\' then
      if |pattern| == 1 || pattern[1] !in SYNTAX then None
      else
        var rest := Literals(pattern[2..]);
        if rest.None? then None else Some([pattern[1]] + rest.value)
    else if pattern[0] in SYNTAX then None
    else
      var rest := Literals(pattern[1..]);
      if rest.None? then None else Some([pattern[0]] + rest.value)
  }

  /** Every name is matched literally. */
  lemma {:induction false} EscapedIsLiteral(name: string)
    ensures Literals(Escape(name)) == Some(name)
  {
    if name != [] {
      EscapedIsLiteral(name[1..]);
      var pattern := Escape(name);
      if name[0] in SYNTAX {
        assert pattern[2..] == Escape(name[1..]);
      } else {
        assert pattern[1..] == Escape(name[1..]);
      }
      assert [name[0]] + name[1..] == name;
    }
  }

  /** Exactly the fourteen characters with a meaning in a pattern are escaped, one by one. */
  lemma {:induction false} EscapesEach(name: string, c: char)
    ensures Escape(name + [c])
            == Escape(name)
               + if c in {'.', '*', '+', '?', '^', '$', '{', '}', '(', ')', '|', '[', ']', '\\'} then ['\\', c] else [c]
    decreases |name|
  {
    if name == [] {
      assert name + [c] == [c];
      assert Escape([c][1..]) == [];
    } else {
      assert (name + [c])[1..] == name[1..] + [c];
      EscapesEach(name[1..], c);
    }
  }

  lemma SpacesAre(c: char)
    ensures IsSpace(c)
            <==> || 9 <= c as int <= 13 || 0x2000 <= c as int <= 0x200A
                 || c as int in {0x20, 0xA0, 0x1680, 0x2028, 0x2029, 0x202F, 0x205F, 0x3000, 0xFEFF}
  {}

  /** The name stands in the body after an `@`, with nothing or a space before the `@`, and nothing,
      a space or one of six punctuation marks after the name. */
  ghost predicate Reads(body: string, before: string, name: string, after: string) {
    && body == before + ("@" + name + after)
    && (before == [] || IsSpace(before[|before| - 1]))
    && (after == [] || IsSpace(after[0]) || after[0] in {',', '.', ';', ':', '!', '?'})
  }

  lemma ReadingIsMention(body: string, before: string, name: string, after: string)
    requires Reads(body, before, name, after)
    ensures body[|before|..] == "@" + name + after && Live(body, |before|) && Mention(body[|before|..], name)
  {
    var s := body[|before|..];
    assert s == "@" + name + after;
    assert s[1..] == name + after;
    assert s[1..][|name|..] == after;
  }

  lemma MentionIsReading(body: string, i: nat, name: string)
    requires i < |body| && Live(body, i) && Mention(body[i..], name)
    ensures Reads(body, body[..i], name, body[i..][1..][|name|..])
  {
    var s := body[i..];
    var after := s[1..][|name|..];
    assert s == [s[0]] + s[1..] && s[1..] == name + after;
    assert s == "@" + name + after;
    assert body == body[..i] + s;
  }

  lemma MentionMeans(body: string, name: string)
    ensures BodyMentionsFullName(body, name)
            <==> name != [] && exists before: string, after: string :: Reads(body, before, name, after)
  {
    if BodyMentionsFullName(body, name) {
      var i :| 0 <= i < |body| && Live(body, i) && Mention(body[i..], name);
      MentionIsReading(body, i, name);
    }
    forall before: string, after: string | Reads(body, before, name, after)
      ensures name != [] ==> BodyMentionsFullName(body, name)
    {
      ReadingIsMention(body, before, name, after);
    }
  }

  // ---------- Completion is recognised ----------

  /** A mention is being typed exactly when the text ends in a live `@` and word characters. */
  lemma ExtractExactlyWhen(word: char -> bool, text: string, caret: nat, prefix: string, token: string)
    requires WordClass(word)
    requires text == prefix + "@" + token && caret >= |text|
    ensures Live(text, |prefix|) && AllWord(word, token) <==> ExtractMentionToken(word, text, caret) == Some(token)
  {
    assert Before(text, caret) == text && After(text, caret) == [];
    var start := LastIndexOf(text, '@');
    assert text[|prefix|] == '@' && start >= |prefix|;
    assert text[|prefix| + 1..] == token;
    if start != |prefix| {
      assert text[start] == token[start - |prefix| - 1];
      assert |text[start + 1..]| < |token|;
    }
  }

  lemma SplitAt(text: string, i: nat)
    requires i < |text|
    ensures text == text[..i] + [text[i]] + text[i + 1..]
  {}

  /** Nothing else is extracted: an extracted token is what follows a live `@` up to the end. */
  lemma ExtractedToken(word: char -> bool, text: string, caret: nat) returns (prefix: string)
    requires ExtractMentionToken(word, text, caret).Some?
    ensures caret >= |text|
    ensures text == prefix + "@" + ExtractMentionToken(word, text, caret).value && Live(text, |prefix|)
  {
    assert Before(text, caret) == text;
    var start := LastIndexOf(text, '@');
    prefix := text[..start];
    SplitAt(text, start);
  }

  lemma CompletedIsRecognised(text: string, prefix: string, fullName: string)
    requires fullName != [] && text == prefix + "@" + fullName + " " && Live(text, |prefix|)
    ensures BodyMentionsFullName(text, fullName)
  {
    var rest := text[|prefix|..];
    assert rest[1..][..|fullName|] == fullName;
    assert rest[1..][|fullName|..] == " ";
    assert Mention(rest, fullName);
  }

  lemma SpaceEndsMention(word: char -> bool, text: string, caret: nat)
    requires WordClass(word) && text != [] && text[|text| - 1] == ' '
    ensures ExtractMentionToken(word, text, caret).None? || caret < |text|
  {
    if caret >= |text| {
      assert Before(text, caret) == text;
      var start := LastIndexOf(text, '@');
      if 0 <= start { assert text[start + 1..][|text| - start - 2] == ' '; }
    }
  }

  /** What completing an extracted token replaces. */
  lemma CompletionEffect(word: char -> bool, text: string, caret: nat, fullName: string)
    requires ExtractMentionToken(word, text, caret).Some?
    ensures var token := ExtractMentionToken(word, text, caret).value;
            var done := ApplyMentionCompletion(text, caret, fullName);
            && |token| < |text| && Live(text, |text| - |token| - 1)
            && done.text == text[..|text| - |token| - 1] + "@" + fullName + " "
            && done.caret == |done.text|
  {
    var start := LastIndexOf(text, '@');
    assert Before(text, caret) == text && After(text, caret) == [];
    assert text[..Least(|text|, if caret == 0 then 1 else caret)] == text;
    var done := ApplyMentionCompletion(text, caret, fullName);
    var inserted := "@" + fullName + " ";
    assert done.text == text[..start] + inserted + [];
    assert text[..start] + inserted == text[..start] + "@" + fullName + " ";
  }

  lemma {:induction false} LastAt(prefix: string, query: string, c: char)
    requires c !in query
    ensures LastIndexOf(prefix + [c] + query, c) == |prefix|
    decreases |query|
  {
    var s := prefix + [c] + query;
    if query == [] {
      assert s[|s| - 1] == c;
    } else {
      var shorter := query[..|query| - 1];
      assert s[..|s| - 1] == prefix + [c] + shorter && s[|s| - 1] == query[|query| - 1];
      LastAt(prefix, shorter, c);
    }
  }

  /** Wherever the caret is: what was typed from the last `@` before it on gives way to the name and
      a space, the rest stays, and the caret goes behind the space. Without an `@`, nothing happens. */
  lemma CompletionMeans(text: string, caret: nat, prefix: string, query: string, rest: string, fullName: string)
    requires text == prefix + "@" + query + rest && '@' !in query
    requires caret == |prefix| + 1 + |query| || (caret > |text| && rest == [])
    ensures ApplyMentionCompletion(text, caret, fullName)
            == Completion(prefix + "@" + fullName + " " + rest, |prefix| + |fullName| + 2, "@" + fullName + " ")
  {
    var before := Before(text, caret);
    assert before == prefix + ['@'] + query && After(text, caret) == rest;
    assert before[..Least(|before|, if caret == 0 then 1 else caret)] == before;
    LastAt(prefix, query, '@');
    assert text[..|prefix|] == prefix;
    var inserted := "@" + fullName + " ";
    assert prefix + inserted + rest == prefix + "@" + fullName + " " + rest;
  }

  lemma NothingToComplete(text: string, caret: nat, fullName: string)
    requires '@' !in text[..if caret < |text| then caret else |text|]
    ensures ApplyMentionCompletion(text, caret, fullName) == Completion(text, caret, "")
  {
    var before := Before(text, caret);
    assert before[..Least(|before|, if caret == 0 then 1 else caret)] == before;
    var start := LastIndexOf(before, '@');
    assert start >= 0 ==> '@' in before;
  }

  /** Whenever a token was extracted, completing it yields a text that mentions the name, ends the
      mention, keeps what stood before the `@`, and puts the caret at the end. */
  lemma CompletionIsRecognised(word: char -> bool, text: string, caret: nat, fullName: string)
    requires WordClass(word) && fullName != [] && ExtractMentionToken(word, text, caret).Some?
    ensures var token := ExtractMentionToken(word, text, caret).value;
            var done := ApplyMentionCompletion(text, caret, fullName);
            && BodyMentionsFullName(done.text, fullName)
            && ExtractMentionToken(word, done.text, done.caret).None?
            && done.caret == |done.text| && |token| < |text|
            && done.text == text[..|text| - |token| - 1] + "@" + fullName + " "
  {
    CompletionEffect(word, text, caret, fullName);
    var done := ApplyMentionCompletion(text, caret, fullName);
    var prefix := text[..|text| - |ExtractMentionToken(word, text, caret).value| - 1];
    assert forall i | 0 <= i < |prefix| :: done.text[i] == prefix[i] == text[i];
    CompletedIsRecognised(done.text, prefix, fullName);
    SpaceEndsMention(word, done.text, done.caret);
  }
}
