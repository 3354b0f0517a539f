/** Highlighting the mentions of a list of names in a comment. */
module Highlights {
  import opened Mentions

  // ---------- The replacements ----------

  /** A match of the pattern, for the substitutions a replacement text may ask for. */
  datatype Match = Match(text: string, group: string, before: string, after: string)

  /** How String.replace reads `$` in a replacement text, for a pattern with one group. */
  function Substitute(template: string, m: Match): string
    decreases |template|
  {
    if template == [] then []
    else if template[0] != '$' || |template| == 1 then [template[0]] + Substitute(template[1..], m)
    else match template[1]
      case '$' => "$" + Substitute(template[2..], m)
      case '&' => m.text + Substitute(template[2..], m)
      case '`' => m.before + Substitute(template[2..], m)
      case '\'' => m.after + Substitute(template[2..], m)
      case '1' => m.group + Substitute(template[2..], m)
      case _ =>
        if |template| >= 3 && template[1..3] == "01" then m.group + Substitute(template[3..], m)
        else "$" + Substitute(template[1..], m)
  }

  /** Replaces every match in `rest`, the part of the body not consumed yet. */
  function ReplaceAll(consumed: string, rest: string, name: string): string
    decreases |rest|
  {
    if rest == [] then []
    else
      var template := "$1**@" + name + "**";
      if consumed == [] && Mention(rest, name) then
        var after := rest[1 + |name|..];
        Substitute(template, Match("@" + name, "", "", after)) + ReplaceAll("@" + name, after, name)
      else if IsSpace(rest[0]) && Mention(rest[1..], name) then
        var after := rest[2 + |name|..];
        Substitute(template, Match([rest[0]] + "@" + name, [rest[0]], consumed, after))
        + ReplaceAll(consumed + [rest[0]] + "@" + name, after, name)
      else [rest[0]] + ReplaceAll(consumed + [rest[0]], rest[1..], name)
  }

  function Highlighted(body: string, fullNames: seq<string>): string
    decreases |fullNames|
  {
    if fullNames == [] then body
    else Highlighted(if fullNames[0] == [] then body else ReplaceAll([], body, fullNames[0]), fullNames[1..])
  }

  method HighlightMentions(body: string, fullNames: seq<string>) returns (result: string)
    ensures result == Highlighted(body, fullNames)
    ensures AllLiteral(fullNames) ==> Unstarred(result) == Unstarred(body)
    ensures AllLiteral(fullNames) && Harmless(fullNames) ==>
              && Highlighted(result, fullNames) == result
              && forall i | 0 <= i < |fullNames| :: !BodyMentionsFullName(result, fullNames[i])
  {
    result := body;
    for i := 0 to |fullNames|
      invariant Highlighted(result, fullNames[i..]) == Highlighted(body, fullNames)
    {
      var name := fullNames[i];
      assert fullNames[i..][1..] == fullNames[i + 1..];
      if name == [] {
        continue;
      }
      result := ReplaceAll([], result, name);
    }
    if AllLiteral(fullNames) {
      OnlyStarsAdded(body, fullNames);
      if Harmless(fullNames) { HighlightIdempotent(body, fullNames); }
    }
  }

  // ---------- Literal names ----------

  /** A `$` that a replacement text does not take literally. */
  predicate SubstitutesAt(t: string, i: nat)
    requires i < |t|
  {
    t[i] == '$' && i + 1 < |t| && (t[i + 1] in "$&`'1" || (i + 2 < |t| && t[i + 1] == '0' && t[i + 2] == '1'))
  }

  predicate Literal(t: string) { forall i | 0 <= i < |t| :: !SubstitutesAt(t, i) }

  predicate AllLiteral(names: seq<string>) { forall i | 0 <= i < |names| :: Literal(names[i]) }

  function Starred(name: string): string { "**@" + name + "**" }

  lemma LiteralTail(t: string)
    requires t != []
    ensures Literal(t) <==> !SubstitutesAt(t, 0) && Literal(t[1..])
  {
    forall i | 0 <= i < |t| - 1 ensures SubstitutesAt(t[1..], i) <==> SubstitutesAt(t, i + 1) {}
    assert Literal(t[1..]) ==> forall i | 1 <= i < |t| :: !SubstitutesAt(t, i) by {
      if Literal(t[1..]) {
        forall i | 1 <= i < |t| ensures !SubstitutesAt(t, i) { assert !SubstitutesAt(t[1..], i - 1); }
      }
    }
  }

  lemma {:induction false} LiteralStays(t: string, m: Match)
    requires Literal(t)
    ensures Substitute(t, m) == t
    decreases |t|
  {
    if t != [] {
      LiteralTail(t);
      LiteralStays(t[1..], m);
      assert [t[0]] + t[1..] == t;
      assert |t| >= 3 ==> t[1..3] == [t[1], t[2]];
    }
  }

  const NOTHING := Match("", "", "", "")

  /** With nothing to insert, every substitution makes the text shorter. */
  lemma {:induction false} SubstitutionShrinks(t: string)
    ensures |Substitute(t, NOTHING)| <= |t|
    ensures !Literal(t) ==> |Substitute(t, NOTHING)| < |t|
    decreases |t|
  {
    if t != [] {
      LiteralTail(t);
      if t[0] == '$' && |t| > 1 && t[1] in "$&`'1" {
        SubstitutionShrinks(t[2..]);
      } else if t[0] == '$' && |t| > 2 && t[1] == '0' && t[2] == '1' {
        assert t[1..3] == "01";
        SubstitutionShrinks(t[3..]);
      } else {
        assert !SubstitutesAt(t, 0);
        assert |t| >= 3 ==> t[1..3] == [t[1], t[2]];
        SubstitutionShrinks(t[1..]);
      }
    }
  }

  lemma StarredLiteral(name: string)
    ensures Literal(Starred(name)) <==> Literal(name)
  {
    var t := Starred(name);
    forall i | 0 <= i < |name| ensures SubstitutesAt(t, i + 3) <==> SubstitutesAt(name, i) {
      assert t[i + 3] == name[i];
      assert i + 1 < |name| ==> t[i + 4] == name[i + 1];
      assert i + 2 < |name| ==> t[i + 5] == name[i + 2];
    }
    if Literal(name) {
      forall i | 0 <= i < |t| ensures !SubstitutesAt(t, i) {
        if 3 <= i < |name| + 3 { assert !SubstitutesAt(name, i - 3); }
      }
    } else {
      var i :| 0 <= i < |name| && SubstitutesAt(name, i);
      assert SubstitutesAt(t, i + 3);
    }
  }

  lemma TemplateTail(name: string, m: Match)
    ensures Substitute("$1**@" + name + "**", m) == m.group + Substitute(Starred(name), m)
  {
    assert ("$1**@" + name + "**")[2..] == Starred(name);
  }

  lemma Template(name: string, m: Match)
    requires Literal(name)
    ensures Substitute("$1**@" + name + "**", m) == m.group + Starred(name)
  {
    TemplateTail(name, m);
    StarredLiteral(name);
    LiteralStays(Starred(name), m);
  }

  /** The replacement inserts the name as it is, for every match, exactly when no `$` in the name
      starts a substitution; `US$` and `a$b` are literal. */
  lemma InsertedLiterallyExactlyWhen(name: string)
    ensures (forall m :: Substitute("$1**@" + name + "**", m) == m.group + Starred(name)) <==> Literal(name)
  {
    if Literal(name) {
      forall m ensures Substitute("$1**@" + name + "**", m) == m.group + Starred(name) { Template(name, m); }
    } else {
      TemplateTail(name, NOTHING);
      StarredLiteral(name);
      SubstitutionShrinks(Starred(name));
      assert |Substitute("$1**@" + name + "**", NOTHING)| < |NOTHING.group + Starred(name)|;
    }
  }

  // ---------- A simple form of highlighting ----------

  function Mark(live: bool, s: string, name: string): string
    decreases |s|
  {
    if s == [] then []
    else if live && Mention(s, name) then Starred(name) + Mark(false, s[1 + |name|..], name)
    else [s[0]] + Mark(IsSpace(s[0]), s[1..], name)
  }

  lemma LiveIsIrrelevant(s: string, name: string)
    requires !Mention(s, name)
    ensures Mark(true, s, name) == Mark(false, s, name)
  {}

  /** The space before a mention is put back in front of it. */
  lemma MarkAfterSpace(live: bool, s: string, name: string)
    requires s != [] && IsSpace(s[0]) && Mention(s[1..], name)
    ensures Mark(live, s, name) == [s[0]] + Starred(name) + Mark(false, s[2 + |name|..], name)
  {
    assert s[1..][1 + |name|..] == s[2 + |name|..];
    var tail := Mark(false, s[2 + |name|..], name);
    assert [s[0]] + Starred(name) + tail == [s[0]] + (Starred(name) + tail);
  }

  lemma {:induction false} ReplaceIsMark(consumed: string, rest: string, name: string)
    requires Literal(name)
    ensures ReplaceAll(consumed, rest, name) == Mark(consumed == [], rest, name)
    decreases |rest|
  {
    if rest == [] {
    } else if consumed == [] && Mention(rest, name) {
      var after := rest[1 + |name|..];
      Template(name, Match("@" + name, "", "", after));
      ReplaceIsMark("@" + name, after, name);
      assert "" + Starred(name) == Starred(name);
    } else if IsSpace(rest[0]) && Mention(rest[1..], name) {
      var after := rest[2 + |name|..];
      Template(name, Match([rest[0]] + "@" + name, [rest[0]], consumed, after));
      ReplaceIsMark(consumed + [rest[0]] + "@" + name, after, name);
      MarkAfterSpace(consumed == [], rest, name);
    } else {
      ReplaceIsMark(consumed + [rest[0]], rest[1..], name);
      if IsSpace(rest[0]) { LiveIsIrrelevant(rest[1..], name); }
    }
  }

  /** No mention of the name in `s`, which follows a space or starts the body if `live`. */
  predicate NoMention(live: bool, s: string, name: string)
    decreases |s|
  {
    s == [] || (!(live && Mention(s, name)) && NoMention(IsSpace(s[0]), s[1..], name))
  }

  lemma {:induction false} NoMentionMeans(live: bool, s: string, name: string)
    ensures NoMention(live, s, name) <==>
              forall i | 0 <= i < |s| :: (if i == 0 then live else IsSpace(s[i - 1])) ==> !Mention(s[i..], name)
    decreases |s|
  {
    if s != [] {
      NoMentionMeans(IsSpace(s[0]), s[1..], name);
      forall i | 0 <= i < |s| - 1
        ensures s[1..][i..] == s[i + 1..] && (i > 0 ==> s[1..][i - 1] == s[i])
      {}
      assert s[0..] == s;
      if NoMention(live, s, name) {
        forall i | 0 <= i < |s| && (if i == 0 then live else IsSpace(s[i - 1])) ensures !Mention(s[i..], name) {
          if i > 0 { assert s[i..] == s[1..][i - 1..]; }
        }
      } else if NoMention(IsSpace(s[0]), s[1..], name) {
        assert live && Mention(s[0..], name);
      } else {
        var i :| && 0 <= i < |s[1..]| && (if i == 0 then IsSpace(s[0]) else IsSpace(s[1..][i - 1]))
                 && Mention(s[1..][i..], name);
        assert s[1..][i..] == s[i + 1..];
        assert Mention(s[i + 1..], name) && IsSpace(s[i]);
      }
    }
  }

  lemma MentionsMeans(body: string, name: string)
    ensures BodyMentionsFullName(body, name) <==> name != [] && !NoMention(true, body, name)
  {
    NoMentionMeans(true, body, name);
    assert forall i | 0 <= i < |body| :: Live(body, i) <==> if i == 0 then true else IsSpace(body[i - 1]);
  }

  lemma {:induction false} MarkNothing(live: bool, s: string, name: string)
    requires NoMention(live, s, name)
    ensures Mark(live, s, name) == s
    decreases |s|
  {
    if s != [] {
      MarkNothing(IsSpace(s[0]), s[1..], name);
      assert [s[0]] + s[1..] == s;
    }
  }

  lemma {:induction false} MarkGrows(live: bool, s: string, name: string)
    ensures |Mark(live, s, name)| >= |s|
    ensures !NoMention(live, s, name) ==> |Mark(live, s, name)| > |s|
    decreases |s|
  {
    if s != [] {
      if live && Mention(s, name) {
        MarkGrows(false, s[1 + |name|..], name);
      } else {
        MarkGrows(IsSpace(s[0]), s[1..], name);
      }
    }
  }

  lemma ReplacementStarts(name: string, m: Match)
    ensures |Substitute("$1**@" + name + "**", m)| > |m.group|
    ensures Substitute("$1**@" + name + "**", m)[..|m.group|] == m.group
    ensures Substitute("$1**@" + name + "**", m)[|m.group|] == '*'
  {
    TemplateTail(name, m);
    assert Starred(name)[0] == '*' && Substitute(Starred(name), m)[0] == '*';
  }

  /** Whatever a name substitutes, a replaced mention has a star where its `@` stood. */
  lemma {:induction false} ReplaceKeepsExactlyUnmentioned(consumed: string, rest: string, name: string)
    ensures ReplaceAll(consumed, rest, name) == rest <==> NoMention(consumed == [], rest, name)
    decreases |rest|
  {
    if rest == [] {
    } else if consumed == [] && Mention(rest, name) {
      var m := Match("@" + name, "", "", rest[1 + |name|..]);
      ReplacementStarts(name, m);
      assert ReplaceAll(consumed, rest, name)[0] == '*';
    } else if IsSpace(rest[0]) && Mention(rest[1..], name) {
      var m := Match([rest[0]] + "@" + name, [rest[0]], consumed, rest[2 + |name|..]);
      ReplacementStarts(name, m);
      assert ReplaceAll(consumed, rest, name)[1] == '*' && rest[1] == '@';
    } else {
      ReplaceKeepsExactlyUnmentioned(consumed + [rest[0]], rest[1..], name);
      assert rest == [rest[0]] + rest[1..];
      assert ReplaceAll(consumed, rest, name)[1..] == ReplaceAll(consumed + [rest[0]], rest[1..], name);
    }
  }

  /** Recogniser and highlighter agree: the text changes exactly when it mentions the name. */
  lemma HighlightsExactlyMentions(body: string, name: string)
    requires name != []
    ensures Highlighted(body, [name]) != body <==> BodyMentionsFullName(body, name)
  {
    ReplaceKeepsExactlyUnmentioned([], body, name);
    MentionsMeans(body, name);
    assert [name][1..] == [];
  }

  lemma MarkCons(live: bool, c: char, rest: string, name: string)
    requires live ==> !Mention([c] + rest, name)
    ensures Mark(live, [c] + rest, name) == [c] + Mark(IsSpace(c), rest, name)
  {
    assert ([c] + rest)[1..] == rest;
  }

  /** What stands before the first mention is copied. */
  lemma {:induction false} CopiesUpTo(live: bool, a: string, b: string, name: string)
    requires forall i | 0 <= i < |a| ::
               (if i == 0 then live else IsSpace(a[i - 1])) ==> !Mention((a + b)[i..], name)
    ensures Mark(live, a + b, name) == a + Mark(if a == [] then live else IsSpace(a[|a| - 1]), b, name)
    decreases |a|
  {
    if a == [] {
      assert a + b == b;
    } else {
      var s, c, rest := a + b, a[0], a[1..];
      assert s[0..] == s == [c] + (rest + b);
      MarkCons(live, c, rest + b, name);
      forall i | 0 <= i < |rest| && (if i == 0 then IsSpace(c) else IsSpace(rest[i - 1]))
        ensures !Mention((rest + b)[i..], name)
      {
        assert s[i + 1..] == (rest + b)[i..];
        assert (if i == 0 then c else rest[i - 1]) == a[i];
      }
      CopiesUpTo(IsSpace(c), rest, b, name);
      var tail := Mark(if rest == [] then IsSpace(c) else IsSpace(rest[|rest| - 1]), b, name);
      assert [c] + (rest + tail) == a + tail;
    }
  }

  lemma HighlightedIsMark(body: string, name: string)
    requires Literal(name) && name != []
    ensures Highlighted(body, [name]) == Mark(true, body, name)
  {
    ReplaceIsMark([], body, name);
    assert [name][1..] == [];
  }

  lemma FirstMarked(before: string, rest: string, name: string, after: string)
    requires Mention(rest, name) && rest[1 + |name|..] == after && (after != [] ==> after[0] != '@')
    requires before == [] || IsSpace(before[|before| - 1])
    requires forall i | 0 <= i < |before| ::
               (if i == 0 then true else IsSpace(before[i - 1])) ==> !Mention((before + rest)[i..], name)
    ensures Mark(true, before + rest, name) == before + (Starred(name) + Mark(true, after, name))
  {
    CopiesUpTo(true, before, rest, name);
    LiveIsIrrelevant(after, name);
  }

  /** What highlighting a literal name does to the first mention: two stars before the `@`, two
      after the name, and what follows is highlighted by itself. */
  lemma FirstMention(body: string, before: string, name: string, after: string)
    requires name != [] && Literal(name) && Reads(body, before, name, after)
    requires forall i | 0 <= i < |before| && Live(body, i) :: !Mention(body[i..], name)
    ensures Highlighted(body, [name]) == before + ("**@" + name + "**") + Highlighted(after, [name])
  {
    var rest := body[|before|..];
    ReadingIsMention(body, before, name, after);
    ReadingRest(body, before, name, after);
    FirstMarked(before, rest, name, after);
    HighlightedIsMark(body, name);
    HighlightedIsMark(after, name);
    var tail := Mark(true, after, name);
    assert before + (Starred(name) + tail) == before + Starred(name) + tail;
  }

  lemma ReadingRest(body: string, before: string, name: string, after: string)
    requires Reads(body, before, name, after)
    ensures body == before + body[|before|..] && |body[|before|..]| == 1 + |name| + |after|
    ensures body[|before|..][1 + |name|..] == after && (after != [] ==> after[0] != '@')
  {
    var rest := "@" + name + after;
    assert body[|before|..] == rest;
    assert rest[1 + |name|..] == after;
  }

  // ---------- Highlighting twice ----------

  /** No name needs both an `@` and a `*` of the highlighting to be found. */
  predicate Harmless(names: seq<string>) {
    || (forall i | 0 <= i < |names| :: '@' !in names[i])
    || (forall i | 0 <= i < |names| :: '*' !in names[i])
  }

  lemma StarsAreNoName(s: string, name: string)
    requires |s| >= 3 && s[0] == '*' && s[1] == '*' && s[2] == '@'
    requires ('@' !in name || '*' !in name) && name != []
    ensures !Follows(s, name)
  {
    assert name[0] in name;
    assert |name| >= 3 ==> name[2] in name;
    assert |name| < 3 ==> s[|name|..][0] == s[|name|];
  }

  /** Marking never makes a mention out of what follows an `@`. */
  lemma {:induction false} MarkReflectsFollows(live: bool, s: string, name: string, other: string)
    requires '@' !in other || '*' !in other
    ensures Follows(Mark(live, s, name), other) ==> Follows(s, other)
    decreases |s|
  {
    var marked := Mark(live, s, name);
    if s == [] || other == [] {
    } else if live && Mention(s, name) {
      StarsAreNoName(marked, other);
    } else if other[0] == s[0] {
      var tail := Mark(IsSpace(s[0]), s[1..], name);
      var others := other[1..];
      assert marked == [s[0]] + tail && other == [s[0]] + others && s == [s[0]] + s[1..];
      MarkReflectsFollows(IsSpace(s[0]), s[1..], name, others);
      FollowsCons(s[0], tail, others);
      FollowsCons(s[0], s[1..], others);
    }
  }

  lemma FollowsCons(c: char, s: string, name: string)
    ensures Follows([c] + s, [c] + name) <==> Follows(s, name)
  {
    assert ([c] + s)[1..] == s;
    assert [c] + name <= [c] + s <==> name <= s by {
      if [c] + name <= [c] + s { assert ([c] + s)[1..][..|name|] == name; }
    }
    assert |name| <= |s| ==> ([c] + s)[1 + |name|..] == s[|name|..];
  }

  lemma {:induction false} NoMentionLater(live: bool, s: string, name: string, k: nat)
    requires k <= |s| && NoMention(live, s, name)
    ensures NoMention(false, s[k..], name)
    decreases k
  {
    if k == 0 {
      assert s[0..] == s;
    } else {
      NoMentionLater(IsSpace(s[0]), s[1..], name, k - 1);
      assert s[1..][k - 1..] == s[k..];
    }
  }

  lemma TwoStars(live: bool, tail: string, name: string)
    requires NoMention(false, tail, name)
    ensures NoMention(live, "**" + tail, name)
  {
    var s := "**" + tail;
    assert s[1..][1..] == tail;
    assert NoMention(false, s[1..], name);
  }

  /** Names without `@`: no mention starts inside one. */
  lemma {:induction false} InsideWithoutAt(live: bool, x: string, tail: string, other: string)
    requires '@' !in x && NoMention(false, tail, other)
    ensures NoMention(live, x + ("**" + tail), other)
    decreases |x|
  {
    if x == [] {
      TwoStars(live, tail, other);
      assert x + ("**" + tail) == "**" + tail;
    } else {
      assert (x + ("**" + tail))[1..] == x[1..] + ("**" + tail);
      InsideWithoutAt(IsSpace(x[0]), x[1..], tail, other);
    }
  }

  lemma StarStops(x: string, tail: string, other: string)
    requires '*' !in other
    ensures Follows(x + ("**" + tail), other) ==> |other| < |x|
  {
    var s := x + ("**" + tail);
    assert s[|x|] == '*';
    assert |other| > |x| ==> other[|x|] in other;
    assert |other| == |x| ==> s[|other|..][0] == '*';
  }

  lemma InsideReflects(x: string, rest: string, tail: string, other: string)
    requires '*' !in other
    ensures Follows(x + ("**" + tail), other) ==> Follows(x + rest, other)
  {
    var s := x + ("**" + tail);
    StarStops(x, tail, other);
    assert |other| < |x| ==> s[..|other|] == (x + rest)[..|other|] && s[|other|] == (x + rest)[|other|];
  }

  /** Other names without `*`: a mention that lies inside an inserted name was there before. */
  lemma {:induction false} InsideWithoutStar(live: bool, x: string, rest: string, tail: string, other: string)
    requires '*' !in other && NoMention(live, x + rest, other) && NoMention(false, tail, other)
    ensures NoMention(live, x + ("**" + tail), other)
    decreases |x|
  {
    var s := x + ("**" + tail);
    if x == [] {
      TwoStars(live, tail, other);
      assert s == "**" + tail;
    } else {
      assert s[1..] == x[1..] + ("**" + tail) && (x + rest)[1..] == x[1..] + rest;
      InsideWithoutStar(IsSpace(x[0]), x[1..], rest, tail, other);
      InsideReflects(x[1..], rest, tail, other);
    }
  }

  /** The same name without `*` is too long for what is left of it. */
  lemma {:induction false} InsideSelf(live: bool, x: string, tail: string, name: string)
    requires '*' !in name && |x| <= |name| && NoMention(false, tail, name)
    ensures NoMention(live, x + ("**" + tail), name)
    decreases |x|
  {
    var s := x + ("**" + tail);
    if x == [] {
      TwoStars(live, tail, name);
      assert s == "**" + tail;
    } else {
      assert s[1..] == x[1..] + ("**" + tail);
      InsideSelf(IsSpace(x[0]), x[1..], tail, name);
      StarStops(x[1..], tail, name);
    }
  }

  lemma StarredNoMention(live: bool, name: string, tail: string, other: string)
    requires NoMention(false, name + ("**" + tail), other)
    ensures NoMention(live, Starred(name) + tail, other)
  {
    var s := Starred(name) + tail;
    assert s[0] == '*' && s[1] == '*' && s[2] == '@' && s[1..][1..][1..] == name + ("**" + tail);
    assert NoMention(false, s[1..][1..], other);
  }

  /** Marking one name leaves no mention of it. */
  lemma {:induction false} MarkedOnce(live: bool, s: string, name: string)
    requires '@' !in name || '*' !in name
    ensures NoMention(live, Mark(live, s, name), name)
    decreases |s|
  {
    if s != [] {
      var marked := Mark(live, s, name);
      if live && Mention(s, name) {
        var rest := s[1 + |name|..];
        var tail := Mark(false, rest, name);
        MarkedOnce(false, rest, name);
        if '@' !in name { InsideWithoutAt(false, name, tail, name); } else { InsideSelf(false, name, tail, name); }
        StarredNoMention(live, name, tail, name);
      } else {
        MarkedOnce(IsSpace(s[0]), s[1..], name);
        assert marked[1..] == Mark(IsSpace(s[0]), s[1..], name);
        if live && Mention(marked, name) { MarkReflectsFollows(IsSpace(s[0]), s[1..], name, name); }
      }
    }
  }

  predicate HarmlessPair(name: string, other: string) { ('@' !in name && '@' !in other) || '*' !in other }

  /** Marking one name brings back no mention of another. */
  lemma {:induction false} MarkKeepsOthers(live: bool, s: string, name: string, other: string)
    requires HarmlessPair(name, other) && NoMention(live, s, other)
    ensures NoMention(live, Mark(live, s, name), other)
    decreases |s|
  {
    if s != [] {
      var marked := Mark(live, s, name);
      if live && Mention(s, name) {
        var rest := s[1 + |name|..];
        var tail := Mark(false, rest, name);
        NoMentionLater(live, s, other, 1 + |name|);
        MarkKeepsOthers(false, rest, name, other);
        if '*' !in other {
          assert s[1..] == name + rest;
          InsideWithoutStar(false, name, rest, tail, other);
        } else {
          InsideWithoutAt(false, name, tail, other);
        }
        StarredNoMention(live, name, tail, other);
      } else {
        MarkKeepsOthers(IsSpace(s[0]), s[1..], name, other);
        assert marked[1..] == Mark(IsSpace(s[0]), s[1..], name);
        if live && Mention(marked, other) { MarkReflectsFollows(IsSpace(s[0]), s[1..], name, other); }
      }
    }
  }

  predicate Settled(body: string, fullNames: seq<string>) {
    forall i | 0 <= i < |fullNames| && fullNames[i] != [] :: NoMention(true, body, fullNames[i])
  }

  lemma {:induction false} SettledStays(body: string, fullNames: seq<string>, other: string)
    requires NoMention(true, body, other) && AllLiteral(fullNames)
    requires forall i | 0 <= i < |fullNames| :: HarmlessPair(fullNames[i], other)
    ensures NoMention(true, Highlighted(body, fullNames), other)
    decreases |fullNames|
  {
    if fullNames != [] {
      var name := fullNames[0];
      if name != [] {
        ReplaceIsMark([], body, name);
        MarkKeepsOthers(true, body, name, other);
      }
      SettledStays(if name == [] then body else ReplaceAll([], body, name), fullNames[1..], other);
    }
  }

  lemma {:induction false} HighlightSettles(body: string, fullNames: seq<string>)
    requires AllLiteral(fullNames) && Harmless(fullNames)
    ensures Settled(Highlighted(body, fullNames), fullNames)
    decreases |fullNames|
  {
    if fullNames != [] {
      var name := fullNames[0];
      var next := if name == [] then body else ReplaceAll([], body, name);
      HighlightSettles(next, fullNames[1..]);
      if name != [] {
        ReplaceIsMark([], body, name);
        MarkedOnce(true, body, name);
        SettledStays(next, fullNames[1..], name);
      }
      forall i | 0 <= i < |fullNames| && fullNames[i] != []
        ensures NoMention(true, Highlighted(body, fullNames), fullNames[i])
      {
        if i > 0 { assert fullNames[i] == fullNames[1..][i - 1]; }
      }
    }
  }

  lemma {:induction false} SettledIsFixed(body: string, fullNames: seq<string>)
    requires Settled(body, fullNames) && AllLiteral(fullNames)
    ensures Highlighted(body, fullNames) == body
    decreases |fullNames|
  {
    if fullNames != [] {
      var name := fullNames[0];
      if name != [] {
        ReplaceIsMark([], body, name);
        MarkNothing(true, body, name);
      }
      SettledIsFixed(body, fullNames[1..]);
    }
  }

  /** For literal names of which none contains an `@`, or none a `*`, highlighting again changes
      nothing, because no name is recognised any more. */
  lemma HighlightIdempotent(body: string, fullNames: seq<string>)
    requires AllLiteral(fullNames) && Harmless(fullNames)
    ensures Highlighted(Highlighted(body, fullNames), fullNames) == Highlighted(body, fullNames)
    ensures forall i | 0 <= i < |fullNames| :: !BodyMentionsFullName(Highlighted(body, fullNames), fullNames[i])
  {
    HighlightSettles(body, fullNames);
    var result := Highlighted(body, fullNames);
    SettledIsFixed(result, fullNames);
    forall i | 0 <= i < |fullNames| ensures !BodyMentionsFullName(result, fullNames[i]) {
      MentionsMeans(result, fullNames[i]);
    }
  }

  // ---------- Only stars are added ----------

  function Unstarred(s: string): string {
    if s == [] then [] else (if s[0] == '*' then [] else [s[0]]) + Unstarred(s[1..])
  }

  lemma {:induction false} UnstarredAppend(a: string, b: string)
    ensures Unstarred(a + b) == Unstarred(a) + Unstarred(b)
    decreases |a|
  {
    if a == [] {
      assert a + b == b;
    } else {
      assert (a + b)[1..] == a[1..] + b;
      UnstarredAppend(a[1..], b);
    }
  }

  lemma UnstarredStarred(name: string)
    ensures Unstarred(Starred(name)) == Unstarred("@" + name)
  {
    assert Starred(name) == ("**" + ("@" + name)) + "**";
    UnstarredAppend("**" + ("@" + name), "**");
    UnstarredAppend("**", "@" + name);
    assert Unstarred("**") == [];
  }

  lemma {:induction false} MarkAddsStars(live: bool, s: string, name: string)
    ensures Unstarred(Mark(live, s, name)) == Unstarred(s)
    decreases |s|
  {
    if s != [] {
      if live && Mention(s, name) {
        var rest := s[1 + |name|..];
        MarkAddsStars(false, rest, name);
        assert s == ("@" + name) + rest;
        UnstarredAppend("@" + name, rest);
        UnstarredAppend(Starred(name), Mark(false, rest, name));
        UnstarredStarred(name);
      } else {
        MarkAddsStars(IsSpace(s[0]), s[1..], name);
        assert Mark(live, s, name)[1..] == Mark(IsSpace(s[0]), s[1..], name);
      }
    }
  }

  lemma {:induction false} OnlyStarsAdded(body: string, fullNames: seq<string>)
    requires AllLiteral(fullNames)
    ensures Unstarred(Highlighted(body, fullNames)) == Unstarred(body)
    decreases |fullNames|
  {
    if fullNames != [] {
      var name := fullNames[0];
      if name != [] {
        ReplaceIsMark([], body, name);
        MarkAddsStars(true, body, name);
      }
      OnlyStarsAdded(if name == [] then body else ReplaceAll([], body, name), fullNames[1..]);
    }
  }
}
