/** Where highlighting is not idempotent: the exact condition for one name, and failing inputs. */
module HighlightLimits {
  import opened Mentions
  import opened Highlights

  // ---------- One name ----------

  /** From `k` on, the name goes on like a highlight of itself. */
  predicate EndsInHighlight(n: string, k: nat) {
    && 1 <= k <= |n| - 3 && IsSpace(n[k - 1]) && n[k..k + 3] == "**@"
    && n[k + 3..] == n[..|n| - k - 3] && Ends(n[|n| - k - 3..])
  }

  /** What follows the `@` at `j`, closed by the stars of a highlight and some more, is the name. */
  predicate RestartsInside(n: string, j: nat) {
    && 1 <= j < |n| && n[j] == '@' && IsSpace(n[j - 1])
    && n[..|n| - j - 1] == n[j + 1..] && n[|n| - j - 1..|n| - j + 1] == "**" && Ends(n[|n| - j + 1..])
  }

  /** A highlight of the name can give rise to another mention of it. */
  predicate SelfOverlap(n: string) {
    || (exists k | 0 <= k < |n| :: EndsInHighlight(n, k))
    || (exists j | 0 <= j < |n| :: RestartsInside(n, j))
  }

  /** A mention that starts in copied text was there before, or runs into a highlight. */
  lemma {:induction false} CopiedFollows(live: bool, r: string, n: string, k: nat)
    requires k <= |n| && n != [] && !SelfOverlap(n) && (live ==> 1 <= k && IsSpace(n[k - 1]))
    ensures Follows(Mark(live, r, n), n[k..]) ==> Follows(r, n[k..])
    decreases |n| - k
  {
    var marked, w := Mark(live, r, n), n[k..];
    if r == [] || w == [] {
    } else if live && Mention(r, n) {
      HighlightEndsName(marked, Mark(false, r[1 + |n|..], n), n, k);
    } else if r[0] == n[k] {
      var tail := Mark(IsSpace(r[0]), r[1..], n);
      assert marked == [r[0]] + tail && w == [r[0]] + n[k + 1..] && r == [r[0]] + r[1..];
      CopiedFollows(IsSpace(r[0]), r[1..], n, k + 1);
      FollowsCons(r[0], tail, n[k + 1..]);
      FollowsCons(r[0], r[1..], n[k + 1..]);
    }
  }

  lemma HighlightEndsName(marked: string, tail: string, n: string, k: nat)
    requires 1 <= k < |n| && IsSpace(n[k - 1])
    requires marked == Starred(n) + tail
    ensures Follows(marked, n[k..]) ==> EndsInHighlight(n, k)
  {
    var w := n[k..];
    assert marked[0] == '*' && marked[1] == '*' && marked[2] == '@' && marked[3..3 + |n|] == n;
    if |w| < 3 {
      assert marked[|w|..][0] == marked[|w|];
    } else if w <= marked {
      var i := |n| - k - 3;
      assert marked[..|w|] == w;
      assert w[..3] == marked[..3] == "**@";
      assert n[k..k + 3] == w[..3];
      assert n[k + 3..] == w[3..] == marked[3..3 + i] == n[..i];
      assert marked[|w|..][0] == n[i] && n[i..][0] == n[i];
    }
  }

  /** No mention starts in an inserted name, from its `j`-th character on. */
  lemma {:induction false} InsideHighlight(live: bool, n: string, j: nat, rest: string, tail: string)
    requires j <= |n| && !SelfOverlap(n) && (live ==> 1 <= j && IsSpace(n[j - 1]))
    requires Ends(rest) && tail == Mark(false, rest, n) && NoMention(false, tail, n)
    ensures NoMention(live, n[j..] + ("**" + tail), n)
    decreases |n| - j
  {
    var s := n[j..] + ("**" + tail);
    if j == |n| {
      TwoStars(live, tail, n);
      assert s == "**" + tail;
    } else {
      assert s[1..] == n[j + 1..] + ("**" + tail);
      InsideHighlight(IsSpace(n[j]), n, j + 1, rest, tail);
      if live && n[j] == '@' { RestartFound(s[1..], n, j, rest, tail); }
    }
  }

  lemma RestartFound(s: string, n: string, j: nat, rest: string, tail: string)
    requires 1 <= j < |n| && n[j] == '@' && IsSpace(n[j - 1])
    requires Ends(rest) && tail == Mark(false, rest, n) && s == n[j + 1..] + ("**" + tail)
    ensures Follows(s, n) ==> RestartsInside(n, j)
  {
    if n <= s {
      var d := |n| - j - 1;
      assert n == s[..|n|];
      assert n[..d] == n[j + 1..] && n[d..d + 2] == s[d..d + 2] == "**";
      assert d + 2 < |n| ==> n[d + 2..][0] == s[d + 2] == tail[0] == rest[0];
    }
  }

  lemma {:induction false} MarkedSettles(live: bool, s: string, n: string)
    requires n != [] && !SelfOverlap(n)
    ensures NoMention(live, Mark(live, s, n), n)
    decreases |s|
  {
    if s != [] {
      var marked := Mark(live, s, n);
      if live && Mention(s, n) {
        var rest := s[1 + |n|..];
        var tail := Mark(false, rest, n);
        MarkedSettles(false, rest, n);
        assert s[1..][|n|..] == rest;
        InsideHighlight(false, n, 0, rest, tail);
        assert n[0..] == n;
        StarredNoMention(live, n, tail, n);
      } else {
        MarkedSettles(IsSpace(s[0]), s[1..], n);
        assert marked[1..] == Mark(IsSpace(s[0]), s[1..], n);
        if s[0] == '@' {
          CopiedFollows(false, s[1..], n, 0);
          assert n[0..] == n;
        }
      }
    }
  }

  lemma NothingBefore(t: string, u: string, e: string, n: string, i: nat)
    requires n == u + ("**@" + e) && t == ("@" + u) + ("@" + n) && i < 1 + |u|
    ensures !Mention(t[i..], n)
  {
    var s := t[i..];
    assert n[|u|] == '*';
    assert s[1 + |u|] == t[i + 1 + |u|];
    assert t[i + 1 + |u|] == if i == 0 then '@' else n[i - 1];
    assert i > 0 ==> n[i - 1] == u[i - 1] == t[i] == s[0];
    assert n <= s[1..] ==> n[|u|] == s[1..][|u|];
  }

  lemma MarksSecondOnly(u: string, e: string, n: string)
    requires n == u + ("**@" + e) && u != [] && IsSpace(u[|u| - 1])
    ensures Mark(true, ("@" + u) + ("@" + n), n) == ("@" + u) + Starred(n)
  {
    var a, b := "@" + u, "@" + n;
    forall i | 0 <= i < |a| ensures !Mention((a + b)[i..], n) { NothingBefore(a + b, u, e, n, i); }
    assert a[|a| - 1] == u[|u| - 1];
    assert b[1..] == n && n[|n|..] == [] && b[1 + |n|..] == [];
    FirstMarked(a, b, n, []);
    assert Starred(n) + [] == Starred(n);
  }

  lemma MentionedAgain(u: string, e: string, z: string, n: string)
    requires n == u + ("**@" + e) && n == e + z && z != [] && Ends(z)
    ensures Mention(("@" + u) + Starred(n), n)
  {
    var marked := ("@" + u) + Starred(n);
    assert Starred(n) == "**@" + (e + z) + "**";
    assert marked[1..] == (u + ("**@" + e)) + (z + "**");
    assert (n + (z + "**"))[|n|..] == z + "**";
  }

  lemma Cut(n: string, i: nat, middle: string, j: nat)
    requires i <= j <= |n| && n[i..j] == middle
    ensures n == n[..i] + (middle + n[j..])
  {
    assert n == n[..i] + (n[i..j] + n[j..]);
  }

  lemma HighlightPieces(n: string, k: nat) returns (u: string, e: string, z: string)
    requires EndsInHighlight(n, k)
    ensures n == u + ("**@" + e) && n == e + z && z != [] && Ends(z) && u != [] && IsSpace(u[|u| - 1])
  {
    u, e, z := n[..k], n[..|n| - k - 3], n[|n| - k - 3..];
    Cut(n, k, "**@", k + 3);
  }

  /** A body whose highlight is mentioned once more, when the name ends in a highlight. */
  lemma EndsInHighlightFails(n: string, u: string, e: string, z: string)
    requires n == u + ("**@" + e) && n == e + z && z != [] && Ends(z) && u != [] && IsSpace(u[|u| - 1])
    ensures !NoMention(true, Mark(true, ("@" + u) + ("@" + n), n), n)
  {
    MarksSecondOnly(u, e, n);
    MentionedAgain(u, e, z, n);
  }

  lemma MarksWhole(x: string, n: string)
    requires Ends(x) && |x| <= |n|
    ensures Mark(true, "@" + n + x, n) == Starred(n) + x
  {
    var body := "@" + n + x;
    assert body[1..] == n + x && (n + x)[|n|..] == x && body[1 + |n|..] == x;
    ShortStays(false, x, n);
  }

  lemma MentionedInside(p: string, y: string, x: string, n: string)
    requires n == p + ("@" + y) && n == y + ("**" + x) && p != [] && IsSpace(p[|p| - 1])
    ensures !NoMention(true, Starred(n) + x, n)
  {
    var marked, i := Starred(n) + x, 3 + |p|;
    assert marked == ("**@" + p) + ("@" + (y + ("**" + x)));
    assert marked[i..] == "@" + n && (("@" + n)[1..]) == n && n[|n|..] == [];
    assert marked[i - 1] == p[|p| - 1];
    NoMentionMeans(true, marked, n);
  }

  lemma RestartPieces(n: string, j: nat) returns (p: string, y: string, x: string)
    requires RestartsInside(n, j)
    ensures n == p + ("@" + y) && n == y + ("**" + x) && p != [] && IsSpace(p[|p| - 1]) && Ends(x) && |x| <= |n|
  {
    var d := |n| - j - 1;
    p, y, x := n[..j], n[j + 1..], n[d + 2..];
    assert n[j..j + 1] == "@";
    Cut(n, j, "@", j + 1);
    Cut(n, d, "**", d + 2);
    assert p[|p| - 1] == n[j - 1];
  }

  /** And one for a name that restarts inside itself. */
  lemma RestartsInsideFails(n: string, p: string, y: string, x: string)
    requires n == p + ("@" + y) && n == y + ("**" + x) && p != [] && IsSpace(p[|p| - 1]) && Ends(x) && |x| <= |n|
    ensures !NoMention(true, Mark(true, "@" + n + x, n), n)
  {
    MarksWhole(x, n);
    MentionedInside(p, y, x, n);
  }

  lemma ShortStays(live: bool, s: string, n: string)
    requires |s| <= |n|
    ensures Mark(live, s, n) == s
  {
    assert forall i | 0 <= i < |s| :: |s[i..]| <= |n|;
    NoMentionMeans(live, s, n);
    MarkNothing(live, s, n);
  }

  /** For a literal name, highlighting is idempotent on every body if and only if the name does not
      overlap with its own highlight. */
  lemma IdempotentExactlyWhen(n: string)
    requires n != [] && Literal(n)
    ensures (forall body :: Highlighted(Highlighted(body, [n]), [n]) == Highlighted(body, [n])) <==> !SelfOverlap(n)
  {
    if !SelfOverlap(n) {
      forall body ensures Highlighted(Highlighted(body, [n]), [n]) == Highlighted(body, [n]) {
        HighlightedLiteral(body, n);
        MarkedSettles(true, body, n);
        MarkNothing(true, Mark(true, body, n), n);
        HighlightedLiteral(Mark(true, body, n), n);
      }
    } else {
      var body := FailingBody(n);
      HighlightedLiteral(body, n);
      MarkGrows(true, Mark(true, body, n), n);
      HighlightedLiteral(Mark(true, body, n), n);
    }
  }

  lemma FailingBody(n: string) returns (body: string)
    requires SelfOverlap(n)
    ensures !NoMention(true, Mark(true, body, n), n)
  {
    if k :| 0 <= k < |n| && EndsInHighlight(n, k) {
      var u, e, z := HighlightPieces(n, k);
      body := ("@" + u) + ("@" + n);
      EndsInHighlightFails(n, u, e, z);
    } else {
      var j :| 0 <= j < |n| && RestartsInside(n, j);
      var p, y, x := RestartPieces(n, j);
      body := "@" + n + x;
      RestartsInsideFails(n, p, y, x);
    }
  }

  lemma HighlightedLiteral(body: string, n: string)
    requires n != [] && Literal(n)
    ensures Highlighted(body, [n]) == Mark(true, body, n)
  {
    HighlightedOne(body, n);
    ReplaceIsMark([], body, n);
  }

  /** Only a name with both an `@` and a `*` can overlap. */
  lemma OverlapNeedsBoth(n: string)
    requires SelfOverlap(n)
    ensures '@' in n && '*' in n
  {
    if k :| 0 <= k < |n| && EndsInHighlight(n, k) {
      assert n[k] == n[k..k + 3][0] == '*' && n[k + 2] == n[k..k + 3][2] == '@';
    } else {
      var j :| 0 <= j < |n| && RestartsInside(n, j);
      var d := |n| - j - 1;
      assert n[d] == n[d..d + 2][0] == '*';
    }
  }

  /** Both kinds of overlap occur. */
  lemma OverlapExamples()
    ensures SelfOverlap("x **@x") && SelfOverlap("y** @y")
  {
    var a, b := "x **@x", "y** @y";
    assert a[2..5] == "**@" && a[5..] == "x" == a[..1] && a[1..][0] == ' ';
    assert EndsInHighlight(a, 2);
    assert b[..1] == "y" == b[5..] && b[1..3] == "**" && b[3..][0] == ' ';
    assert RestartsInside(b, 4);
  }

  // ---------- Lists that are not harmless, names that are not literal ----------

  lemma MarkSecond(body: string, n: string)
    requires n == "b" && body == "@a @" + n
    ensures Mark(true, body, n) == "@a **@" + n + "**"
  {
    var s1, s2, s3 := "a @" + n, " @" + n, "@" + n;
    assert body[1..] == s1 && s1[1..] == s2 && s2[1..] == s3;
    assert s1[0] == 'a' && s2[0] == ' ';
    assert s3[1..] == n && n[|n|..] == [] && s3[1 + |n|..] == [];
    assert Mark(true, s3, n) == Starred(n) + [];
    assert Mark(false, s2, n) == [' '] + Starred(n);
    assert Mark(false, s1, n) == ['a'] + ([' '] + Starred(n));
    assert Mark(true, body, n) == ['@'] + (['a'] + ([' '] + Starred(n)));
  }

  lemma HighlightedOne(body: string, n: string)
    requires n != []
    ensures Highlighted(body, [n]) == ReplaceAll([], body, n)
  {
    assert [n][1..] == [];
    assert Highlighted(ReplaceAll([], body, n), []) == ReplaceAll([], body, n);
  }

  lemma HighlightedTwo(body: string, m: string, n: string)
    requires m != [] && n != [] && Literal(m) && Literal(n)
    ensures Highlighted(body, [m, n]) == Mark(true, Mark(true, body, m), n)
  {
    assert [m, n][1..] == [n];
    ReplaceIsMark([], body, m);
    HighlightedOne(Mark(true, body, m), n);
    ReplaceIsMark([], Mark(true, body, m), n);
  }

  lemma MarkGrowsAgain(once: string, m: string, n: string)
    requires once == "@" + m && Literal(m) && Literal(n) && m != [] && n != []
    ensures Highlighted(once, [m, n]) != once
  {
    HighlightedTwo(once, m, n);
    assert once[1..] == m && m[|m|..] == [] && Mention(once, m);
    MarkGrows(true, once, m);
    MarkGrows(true, Mark(true, once, m), n);
  }

  lemma StarsCompleteMention(body: string, m: string, n: string)
    requires n == "b" && m == "a **@" + n + "**" && body == "@a @" + n
    ensures Highlighted(Highlighted(body, [m, n]), [m, n]) != Highlighted(body, [m, n])
  {
    ShortStays(true, body, m);
    MarkSecond(body, n);
    HighlightedTwo(body, m, n);
    assert "@a **@" + n + "**" == "@" + m;
    MarkGrowsAgain("@" + m, m, n);
  }

  lemma NeitherOverlaps()
    ensures !SelfOverlap("a **@b**") && !SelfOverlap("b")
  {
    var m := "a **@b**";
    forall k | 0 <= k < |m| ensures !EndsInHighlight(m, k) {
      if 1 <= k <= |m| - 3 && m[k..k + 3] == "**@" {
        assert m[k + 2] == m[k..k + 3][2];
        assert m[5..][0] == 'b' && m[..3][0] == 'a';
      }
    }
    forall j | 0 <= j < |m| ensures !RestartsInside(m, j) { assert m[j] == '@' ==> j == 4; }
  }

  /** The stars around one name can complete the mention of a name that contains stars itself,
      although neither of the two overlaps with its own highlight. */
  lemma MixedNamesNotIdempotent()
    ensures !SelfOverlap("a **@b**") && !SelfOverlap("b")
    ensures var names := ["a **@b**", "b"];
            Highlighted(Highlighted("@a @b", names), names) != Highlighted("@a @b", names)
  {
    var body, m, n := "@a @b", "a **@b**", "b";
    assert m == "a **@" + n + "**" && body == "@a @" + n;
    StarsCompleteMention(body, m, n);
    NeitherOverlaps();
  }

  lemma NoStarNoMention(s: string, name: string)
    requires '*' !in s && '*' in name
    ensures !Mention(s, name)
  {
    var i :| 0 <= i < |name| && name[i] == '*';
    if |name| < |s| {
      assert s[1 + i] in s;
      assert s[1..][i] != name[i];
    }
  }

  lemma {:induction false} NeedsStar(live: bool, s: string, name: string)
    requires '*' !in s && '*' in name
    ensures Mark(live, s, name) == s
    decreases |s|
  {
    if s != [] {
      NoStarNoMention(s, name);
      NeedsStar(IsSpace(s[0]), s[1..], name);
      assert s == [s[0]] + s[1..];
    }
  }

  lemma HighlightCompletes(m: string, n: string)
    requires m == "c**" && n == "x @c"
    ensures !NoMention(true, Starred(n), m)
  {
    var once := Starred(n);
    assert once == "**@x " + ("@" + m) && once[4] == ' ';
    assert once[5..] == "@" + m && ("@" + m)[1..] == m && m[|m|..] == [];
    NoMentionMeans(true, once, m);
  }

  /** The two characters may come from two names: no name here has both. */
  lemma SplitNamesNotIdempotent()
    ensures var names := ["c**", "x @c"];
            && '@' !in names[0] && '*' !in names[1]
            && Highlighted(Highlighted("@x @c", names), names) != Highlighted("@x @c", names)
  {
    var m, n := "c**", "x @c";
    assert "@x @c" == "@" + n + [] && m[1] == '*';
    NeedsStar(true, "@x @c", m);
    MarksWhole([], n);
    assert Starred(n) + [] == Starred(n);
    HighlightedTwo("@x @c", m, n);
    HighlightCompletes(m, n);
    HighlightedTwo(Starred(n), m, n);
    MarkGrows(true, Starred(n), m);
    MarkGrows(true, Mark(true, Starred(n), m), n);
  }

  lemma AfterTemplate(m: Match)
    ensures Substitute("$1**@" + "$'" + "**", m) == m.group + "**@" + m.after + "**"
  {
    var t := "$1**@" + "$'" + "**";
    assert t[2..] == "**@$'**" && "**@$'**"[1..] == "*@$'**" && "*@$'**"[1..] == "@$'**" && "@$'**"[1..] == "$'**";
    assert "$'**"[2..] == "**" && "**"[1..] == "*" && "*"[1..] == [];
    assert Substitute("*", m) == "*";
    assert Substitute("**", m) == "**";
    assert Substitute("$'**", m) == m.after + "**";
    assert Substitute("@$'**", m) == "@" + (m.after + "**");
    assert Substitute("*@$'**", m) == "*" + ("@" + (m.after + "**"));
    assert Substitute("**@$'**", m) == "**@" + m.after + "**";
  }

  /** One replacement of `$'` in the middle of a body, followed by a full stop. */
  lemma ReplacesSecond(consumed: string, tail: string, rest: string, n: string)
    requires n == "$'" && tail == " @" + n + "." + rest
    ensures ReplaceAll(consumed, tail, n)
            == " **@." + rest + "**" + ReplaceAll(consumed + " @" + n, "." + rest, n)
  {
    assert tail[1..] == "@" + n + "." + rest;
    assert tail[1..][1..][..2] == n && tail[1..][1..][2..] == "." + rest;
    assert Mention(tail[1..], n) && !Mention(tail, n);
    assert tail[2 + |n|..] == "." + rest;
    assert [tail[0]] + "@" + n == " @" + n && consumed + [tail[0]] + "@" + n == consumed + " @" + n;
    var m := Match(" @" + n, " ", consumed, "." + rest);
    AfterTemplate(m);
    assert " " + "**@" + ("." + rest) + "**" == " **@." + rest + "**";
  }

  lemma ReplacesFirst(tail: string, n: string)
    requires n == "$'" && tail != [] && tail[0] == ' '
    ensures ReplaceAll([], "@" + n + tail, n) == "**@" + tail + "**" + ReplaceAll("@" + n, tail, n)
  {
    var body := "@" + n + tail;
    assert body[1..][..2] == n && body[1..][2..] == tail && body[3..] == tail;
    AfterTemplate(Match("@" + n, "", "", tail));
    assert [] + "**@" + tail + "**" == "**@" + tail + "**";
  }

  lemma SkipsOne(consumed: string, c: char, rest: string, name: string)
    requires !IsSpace(c) && (consumed != [] || c != '@')
    ensures ReplaceAll(consumed, [c] + rest, name) == [c] + ReplaceAll(consumed + [c], rest, name)
  {
    assert ([c] + rest)[1..] == rest;
  }

  lemma SkipsThree(tail: string, n: string)
    ensures ReplaceAll([], "**@" + tail, n) == "**@" + ReplaceAll("**@", tail, n)
  {
    assert "**@" + tail == ['*'] + (['*'] + (['@'] + tail));
    SkipsOne([], '*', ['*'] + (['@'] + tail), n);
    SkipsOne([] + ['*'], '*', ['@'] + tail, n);
    SkipsOne([] + ['*'] + ['*'], '@', tail, n);
    assert [] + ['*'] + ['*'] + ['@'] == "**@";
    var rest := ReplaceAll("**@", tail, n);
    assert ['*'] + (['*'] + (['@'] + rest)) == "**@" + rest;
  }

  lemma ReplacedAgain(once: string, tail: string, rest: string, n: string)
    requires n == "$'" && tail == " @" + n + "." + rest && once == "**@" + tail
    ensures Highlighted(once, [n]) != once
  {
    HighlightedOne(once, n);
    SkipsThree(tail, n);
    ReplacesSecond("**@", tail, rest, n);
    var again := ReplaceAll("**@", tail, n);
    assert again[1] == '*' && ("**@" + again)[4] == again[1];
    assert once[4] == tail[1] == '@';
  }

  lemma Regroup(a: string, b: string, c: string, d: string)
    ensures a + b + c + d == a + (b + (c + d))
  {}

  lemma CopiesMention(body: string, tail: string, n: string)
    requires n == "$'" && tail == " @" + n + "." && body == "@" + n + tail
    ensures Highlighted(Highlighted(body, [n]), [n]) != Highlighted(body, [n])
  {
    HighlightedOne(body, n);
    ReplacesFirst(tail, n);
    var others := ReplaceAll("@" + n, tail, n);
    Regroup("**@", tail, "**", others);
    ReplacedAgain(Highlighted(body, [n]), tail + ("**" + others), "**" + others, n);
  }

  /** A name that is not literal: the replacement text copies a mention into itself. */
  lemma DollarNotIdempotent()
    ensures var names := ["$'"];
            Highlighted(Highlighted("@$' @$'.", names), names) != Highlighted("@$' @$'.", names)
  {
    var body, tail, n := "@$' @$'.", " @$'.", "$'";
    assert tail == " @" + n + "." && body == "@" + n + tail;
    CopiesMention(body, tail, n);
  }
}
