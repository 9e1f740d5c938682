/**
 What is left of a text, told by its lines and words: a body keeps its lines, whichever way they were
 ended, and a field is its words, one space apart.
 */
module LinesAndWords {
  import opened SafeText

  // ---------- Lines ----------

  predicate IsBreak(c: char) { c == '\n' || c == '\r' }

  /** The lines of a text; CR LF, CR and LF each end one. */
  function Lines(s: string): (ls: seq<string>)
    ensures ls != []
  {
    if s == "" then [""]
    else if s[0] == '\r' && |s| > 1 && s[1] == '\n' then [""] + Lines(s[2..])
    else if IsBreak(s[0]) then [""] + Lines(s[1..])
    else var rest := Lines(s[1..]); [[s[0]] + rest[0]] + rest[1..]
  }

  /** The pieces of a text between its line feeds. */
  function AtLineFeeds(s: string): (ls: seq<string>)
    ensures ls != []
  {
    if s == "" then [""]
    else if s[0] == '\n' then [""] + AtLineFeeds(s[1..])
    else var rest := AtLineFeeds(s[1..]); [[s[0]] + rest[0]] + rest[1..]
  }

  predicate IsEnd(e: string) { e == "\r\n" || e == "\r" || e == "\n" }

  /** Some lines with the end of each but the last. */
  function Ended(ls: seq<string>, ends: seq<string>): string
    requires |ls| == |ends| + 1
  {
    if ends == [] then ls[0] else ls[0] + ends[0] + Ended(ls[1..], ends[1..])
  }

  /** A carriage return alone is not in front of a line feed: the two would be one end. */
  ghost predicate Apart(ls: seq<string>, ends: seq<string>) {
    |ls| == |ends| + 1 && forall i :: 0 <= i < |ends| ==>
      && IsEnd(ends[i])
      && (ends[i] == "\r" && i + 1 < |ends| && ls[i + 1] == "" ==> ends[i + 1] != "\n")
  }

  lemma OneMoreLine(e: string, ls: seq<string>, ends: seq<string>)
    requires Apart(ls, ends) && IsEnd(e)
    requires e == "\r" && ends != [] && ls[0] == "" ==> ends[0] != "\n"
    ensures Apart([""] + ls, [e] + ends) && Ended([""] + ls, [e] + ends) == e + Ended(ls, ends)
  {
    assert ([""] + ls)[1..] == ls && ([e] + ends)[1..] == ends;
    assert "" + e == e;
    forall i | 0 <= i < |[e] + ends|
      ensures IsEnd(([e] + ends)[i])
      ensures ([e] + ends)[i] == "\r" && i + 1 < |[e] + ends| && ([""] + ls)[i + 1] == ""
              ==> ([e] + ends)[i + 1] != "\n"
    {
      if i > 0 {
        assert ([e] + ends)[i] == ends[i - 1];
        assert i + 1 < |[e] + ends| ==> ([e] + ends)[i + 1] == ends[i] && ([""] + ls)[i + 1] == ls[i];
      }
    }
  }

  lemma LongerFirst(c: char, ls: seq<string>, ends: seq<string>)
    requires Apart(ls, ends)
    ensures var longer := [[c] + ls[0]] + ls[1..];
            Apart(longer, ends) && Ended(longer, ends) == [c] + Ended(ls, ends)
  {
    var longer := [[c] + ls[0]] + ls[1..];
    assert longer[1..] == ls[1..];
    if ends != [] {
      ConcatAssoc([c], ls[0], ends[0]);
      ConcatAssoc([c], ls[0] + ends[0], Ended(ls[1..], ends[1..]));
    }
    forall i | 0 <= i < |ends|
      ensures IsEnd(ends[i])
      ensures ends[i] == "\r" && i + 1 < |ends| && longer[i + 1] == "" ==> ends[i + 1] != "\n"
    {
      assert longer[i + 1] == ls[i + 1];
    }
  }

  ghost predicate Unbroken(ls: seq<string>) {
    forall i, j :: 0 <= i < |ls| && 0 <= j < |ls[i]| ==> !IsBreak(ls[i][j])
  }

  lemma UnbrokenCons(l: string, ls: seq<string>)
    requires Unbroken(ls) && forall j :: 0 <= j < |l| ==> !IsBreak(l[j])
    ensures Unbroken([l] + ls)
  {
  }

  /** Those are the lines: none holds a break, and with their ends, CR LF being one, they make the text. */
  lemma {:induction false} LinesAre(s: string) returns (ends: seq<string>)
    ensures Unbroken(Lines(s)) && Apart(Lines(s), ends) && Ended(Lines(s), ends) == s
    decreases |s|
  {
    if s == "" {
      ends := [];
    } else if s[0] == '\r' && |s| > 1 && s[1] == '\n' {
      ends := LinesAre(s[2..]);
      OneMoreLine("\r\n", Lines(s[2..]), ends);
      ends := ["\r\n"] + ends;
      assert s == "\r\n" + s[2..];
      UnbrokenCons("", Lines(s[2..]));
    } else if IsBreak(s[0]) {
      ends := LinesAre(s[1..]);
      HeadOfEnded(Lines(s[1..]), ends);
      OneMoreLine([s[0]], Lines(s[1..]), ends);
      ends := [[s[0]]] + ends;
      assert s == [s[0]] + s[1..];
      UnbrokenCons("", Lines(s[1..]));
    } else {
      ends := LinesAre(s[1..]);
      LongerFirst(s[0], Lines(s[1..]), ends);
      assert s == [s[0]] + s[1..];
      var rest := Lines(s[1..]);
      assert forall j :: 0 <= j < |rest[0]| ==> !IsBreak(rest[0][j]);
      assert Unbroken(rest[1..]) by {
        forall i, j | 0 <= i < |rest[1..]| && 0 <= j < |rest[1..][i]| ensures !IsBreak(rest[1..][i][j]) {
          assert rest[1..][i] == rest[i + 1];
        }
      }
      UnbrokenCons([s[0]] + rest[0], rest[1..]);
    }
  }

  lemma HeadOfEnded(ls: seq<string>, ends: seq<string>)
    requires Apart(ls, ends)
    ensures ends != [] && ls[0] == "" && ends[0] == "\n" ==> Ended(ls, ends) != "" && Ended(ls, ends)[0] == '\n'
  {
    if ends != [] && ls[0] == "" {
      assert "" + ends[0] == ends[0];
    }
  }

  // ---------- One line, cleaned ----------

  /** What stays of a text besides its ordinary characters: tabs, and every space that is no control
      character. */
  predicate Spacing(c: char) {
    c == '\t' || (IsSpace(c) && !IsControl(c) && !IsInvisible(c))
  }

  predicate Shown(c: char) { Ordinary(c) || Spacing(c) }

  function AsSpace(c: char): char { if Ordinary(c) || c == '\t' then c else ' ' }

  function Mapped(f: char -> char, s: string): (t: string)
    ensures |t| == |s| && forall i :: 0 <= i < |s| ==> t[i] == f(s[i])
  {
    seq(|s|, i requires 0 <= i < |s| => f(s[i]))
  }

  /** A line without what is not shown, and with one kind of space. */
  function Plain(line: string): string {
    Mapped(AsSpace, Select(Shown, line))
  }

  lemma PlainCons(c: char, t: string)
    ensures Plain([c] + t) == (if Shown(c) then [AsSpace(c)] else "") + Plain(t)
  {
    assert ([c] + t)[1..] == t;
    if Shown(c) {
      var v := Select(Shown, t);
      assert Mapped(AsSpace, [c] + v) == [AsSpace(c)] + Mapped(AsSpace, v);
    }
  }

  lemma CleanCharIsPlain(c: char, keepLines: bool)
    requires !IsBreak(c)
    ensures CleanChar(c, keepLines) == if Shown(c) then [AsSpace(c)] else ""
  {
  }

  // ---------- A cleaned text, by lines ----------

  /** The first piece with a character in front. */
  lemma PieceCons(c: char, t: string)
    requires c != '\n'
    ensures AtLineFeeds([c] + t) == [[c] + AtLineFeeds(t)[0]] + AtLineFeeds(t)[1..]
  {
    assert ([c] + t)[1..] == t;
  }

  lemma FeedCons(t: string)
    ensures AtLineFeeds("\n" + t) == [""] + AtLineFeeds(t)
  {
    assert ("\n" + t)[1..] == t;
  }

  ghost predicate AllPlain(ls: seq<string>, ps: seq<string>) {
    |ls| == |ps| && forall i :: 0 <= i < |ls| ==> ps[i] == Plain(ls[i])
  }

  lemma FeedKeepsPlain(ls: seq<string>, t: string)
    requires AllPlain(ls, AtLineFeeds(t))
    ensures AllPlain([""] + ls, AtLineFeeds("\n" + t))
  {
    FeedCons(t);
  }

  lemma CharKeepsPlain(c: char, ls: seq<string>, t: string)
    requires !IsBreak(c) && ls != [] && AllPlain(ls, AtLineFeeds(t))
    ensures AllPlain([[c] + ls[0]] + ls[1..], AtLineFeeds(CleanChar(c, true) + t))
  {
    CleanCharIsPlain(c, true);
    PlainCons(c, ls[0]);
    if Shown(c) {
      PieceCons(AsSpace(c), t);
    } else {
      assert "" + t == t && "" + Plain(ls[0]) == Plain(ls[0]);
    }
  }

  lemma CleanCons(c: char, t: string, keepLines: bool)
    ensures CleanChars([c] + t, keepLines) == CleanChar(c, keepLines) + CleanChars(t, keepLines)
  {
    assert ([c] + t)[1..] == t;
  }

  /** Cleaning keeps the lines: as many as before, whichever way they were ended, each of them plain. */
  lemma {:induction false} CleanLines(s: string)
    ensures AllPlain(Lines(s), AtLineFeeds(Clean(s, true)))
    decreases |s|
  {
    if s != "" {
      if IsBreak(s[0]) {
        var rest := if s[0] == '\r' && |s| > 1 && s[1] == '\n' then s[2..] else s[1..];
        CleanLines(rest);
        CleanCons('\n', NormalizeLines(rest), true);
        FeedKeepsPlain(Lines(rest), Clean(rest, true));
      } else {
        CleanLines(s[1..]);
        CleanCons(s[0], NormalizeLines(s[1..]), true);
        CharKeepsPlain(s[0], Lines(s[1..]), Clean(s[1..], true));
      }
    }
  }

  // ---------- A body, by lines ----------

  /** The second is the first with some of its brackets written as escapes. */
  predicate Escapes(a: string, b: string) {
    if a == "" then b == ""
    else
      || (b != "" && b[0] == a[0] && Escapes(a[1..], b[1..]))
      || (a[0] == '<' && "&lt;" <= b && Escapes(a[1..], b[4..]))
  }

  ghost predicate AllEscape(ls: seq<string>, ps: seq<string>) {
    |ls| == |ps| && forall i :: 0 <= i < |ls| ==> Escapes(ls[i], ps[i])
  }

  lemma EscapesCons(c: char, a: string, b: string)
    requires Escapes(a, b)
    ensures Escapes([c] + a, [c] + b) && (c == '<' ==> Escapes([c] + a, "&lt;" + b))
  {
    assert ([c] + a)[1..] == a && ([c] + b)[1..] == b && ("&lt;" + b)[4..] == b;
  }

  lemma FirstEscapes(a: string, b: string, ls: seq<string>, ps: seq<string>)
    requires ls != [] && AllEscape(ls, ps) && Escapes(a, b)
    ensures AllEscape([a] + ls[1..], [b] + ps[1..])
  {
    forall i | 0 <= i < |[a] + ls[1..]| ensures Escapes(([a] + ls[1..])[i], ([b] + ps[1..])[i]) {
      if i > 0 { assert Escapes(ls[i], ps[i]); }
    }
  }

  lemma PieceEscaped(t: string)
    ensures AtLineFeeds("&lt;" + t) == ["&lt;" + AtLineFeeds(t)[0]] + AtLineFeeds(t)[1..]
  {
    assert "&lt;" + t == ['&'] + (['l'] + (['t'] + ([';'] + t)));
    PieceCons(';', t);
    PieceCons('t', [';'] + t);
    PieceCons('l', ['t'] + ([';'] + t));
    PieceCons('&', ['l'] + (['t'] + ([';'] + t)));
    var first := AtLineFeeds(t)[0];
    assert ['&'] + (['l'] + (['t'] + ([';'] + first))) == "&lt;" + first;
  }

  lemma {:induction false} NeutraliseLines(s: string)
    ensures AllEscape(AtLineFeeds(s), AtLineFeeds(Neutralise(s)))
  {
    if s != "" {
      var t, n := s[1..], Neutralise(s[1..]);
      NeutraliseLines(t);
      var ls, ps := AtLineFeeds(t), AtLineFeeds(n);
      assert Escapes(ls[0], ps[0]);
      if s[0] == '\n' {
        FeedCons(n);
        assert Neutralise(s) == "\n" + n;
        forall i | 0 <= i < |[""] + ls| ensures Escapes(([""] + ls)[i], ([""] + ps)[i]) {
          if i > 0 { assert Escapes(ls[i - 1], ps[i - 1]); }
        }
      } else {
        EscapesCons(s[0], ls[0], ps[0]);
        if TagLen(s).Some? {
          PieceEscaped(n);
          FirstEscapes([s[0]] + ls[0], "&lt;" + ps[0], ls, ps);
        } else {
          PieceCons(s[0], n);
          FirstEscapes([s[0]] + ls[0], [s[0]] + ps[0], ls, ps);
        }
      }
    }
  }

  /** A body has the lines of the text it was made from, however those were ended: as many, in order, each
      of them plain and with some of its brackets escaped. */
  lemma BodyLines(s: string)
    ensures |AtLineFeeds(Body(s))| == |Lines(s)|
    ensures forall i :: 0 <= i < |Lines(s)| ==> Escapes(Plain(Lines(s)[i]), AtLineFeeds(Body(s))[i])
  {
    BodyIs(s);
    CleanLines(s);
    NeutraliseLines(Clean(s, true));
  }

  // ---------- Words ----------

  /** What stands between two words. */
  predicate Separates(c: char) { IsBreak(c) || Spacing(c) }

  /** The words of a text that is made of ordinary characters and separators. */
  function Words(s: string): (ws: seq<string>)
    ensures s != "" && !Separates(s[0]) ==> ws != []
  {
    if s == "" then []
    else if Separates(s[0]) then Words(s[1..])
    else if |s| > 1 && !Separates(s[1]) then
      var rest := Words(s[1..]);
      [[s[0]] + rest[0]] + rest[1..]
    else [[s[0]]] + Words(s[1..])
  }

  function Spaced(ws: seq<string>): string {
    if ws == [] then "" else if |ws| == 1 then ws[0] else ws[0] + " " + Spaced(ws[1..])
  }

  predicate Read(c: char) { Ordinary(c) || Separates(c) }

  /** One more character in front of two texts with the same words, where one begins a word exactly if the
      other does. */
  lemma SameWordsCons(c: char, d: char, a: string, b: string)
    requires Words(a) == Words(b)
    requires (a != "" && !Separates(a[0])) <==> (b != "" && !Separates(b[0]))
    requires c == d || (Separates(c) && Separates(d))
    ensures Words([c] + a) == Words([d] + b)
  {
    assert ([c] + a)[1..] == a && ([d] + b)[1..] == b;
  }

  ghost predicate SameWords(a: string, b: string) {
    Words(a) == Words(b) && ((a != "" && !Separates(a[0])) <==> (b != "" && !Separates(b[0])))
  }

  lemma SelectCons(p: char -> bool, c: char, t: string)
    ensures Select(p, [c] + t) == (if p(c) then [c] else "") + Select(p, t)
  {
    assert ([c] + t)[1..] == t;
  }

  lemma BreakWords(c: char, t: string)
    requires Separates(c)
    ensures Words([c] + t) == Words(t)
  {
    assert ([c] + t)[1..] == t;
  }

  /** Neither the choice of line ends nor that of spaces changes the words. */
  lemma {:induction false} CleanWords(s: string)
    ensures SameWords(Clean(s, false), Select(Read, s))
    decreases |s|
  {
    if s != "" {
      assert s == [s[0]] + s[1..];
      SelectCons(Read, s[0], s[1..]);
      if IsBreak(s[0]) {
        var two := s[0] == '\r' && |s| > 1 && s[1] == '\n';
        var rest := if two then s[2..] else s[1..];
        CleanWords(rest);
        CleanCons('\n', NormalizeLines(rest), false);
        BreakWords(' ', Clean(rest, false));
        BreakWords(s[0], Select(Read, s[1..]));
        if two {
          assert s[1..] == ['\n'] + rest;
          SelectCons(Read, '\n', rest);
          BreakWords('\n', Select(Read, rest));
        }
      } else {
        CleanWords(s[1..]);
        CleanCons(s[0], NormalizeLines(s[1..]), false);
        CleanCharIsPlain(s[0], false);
        if Shown(s[0]) {
          SameWordsCons(AsSpace(s[0]), s[0], Clean(s[1..], false), Select(Read, s[1..]));
        } else {
          assert "" + Clean(s[1..], false) == Clean(s[1..], false);
          assert "" + Select(Read, s[1..]) == Select(Read, s[1..]);
        }
      }
    }
  }

  lemma {:induction false} CollapseWords(s: string)
    requires AllKept(s, false)
    ensures SameWords(CollapseSpace(s), s)
  {
    if s != "" {
      var t := CollapseSpace(s[1..]);
      assert AllKept(s[1..], false);
      CollapseWords(s[1..]);
      assert Kept(s[0], false);
      assert s == [s[0]] + s[1..];
      if Blank(s[0]) {
        BreakWords(s[0], s[1..]);
        BreakWords(' ', t);
        CollapseBlank(s);
      } else {
        SameWordsCons(s[0], s[0], t, s[1..]);
      }
    }
  }

  lemma CollapseBlank(s: string)
    requires s != "" && Blank(s[0])
    ensures CollapseSpace(s) == CollapseSpace(s[1..]) || CollapseSpace(s) == " " + CollapseSpace(s[1..])
    ensures CollapseSpace(s) != "" && Blank(CollapseSpace(s)[0])
    decreases |s|
  {
    if |s| > 1 && Blank(s[1]) {
      CollapseBlank(s[1..]);
    }
  }

  lemma SpaceSeparates(c: char)
    requires LineChar(c) && IsSpace(c)
    ensures Separates(c)
  {
  }

  lemma {:induction false} TrimLeftWords(s: string)
    requires All(LineChar, s)
    ensures Words(TrimLeft(IsSpace, s)) == Words(s)
  {
    if s != "" && IsSpace(s[0]) {
      assert LineChar(s[0]);
      SpaceSeparates(s[0]);
      SliceAll(LineChar, s, 1, |s|);
      assert s[1..|s|] == s[1..];
      TrimLeftWords(s[1..]);
    }
  }

  lemma {:induction false} WordsSnoc(s: string, c: char)
    requires Separates(c)
    ensures SameWords(s + [c], s)
  {
    if s == "" {
      assert s + [c] == [c];
      assert [c][1..] == "";
    } else {
      WordsSnoc(s[1..], c);
      assert s + [c] == [s[0]] + (s[1..] + [c]);
      assert s == [s[0]] + s[1..];
      SameWordsCons(s[0], s[0], s[1..] + [c], s[1..]);
    }
  }

  lemma {:induction false} TrimRightWords(s: string)
    requires All(LineChar, s)
    ensures Words(TrimRight(IsSpace, s)) == Words(s)
  {
    if s != "" && IsSpace(s[|s| - 1]) {
      var init, last := s[..|s| - 1], s[|s| - 1];
      assert LineChar(last);
      SpaceSeparates(last);
      TrimRightWords(init);
      WordsSnoc(init, last);
      assert s == init + [last];
    }
  }

  lemma TidyTail(s: string, k: nat)
    requires Tidy(s) && k < |s| && s[k] != ' '
    ensures Tidy(s[k..])
  {
    SliceSpacedOnce(s, k, |s|);
    SliceAll(LineChar, s, k, |s|);
    assert s[k..|s|] == s[k..];
  }

  /** A tidy line is its words, one space apart. */
  lemma {:induction false} TidyIsWords(s: string)
    requires Tidy(s)
    ensures Spaced(Words(s)) == s
    decreases |s|
  {
    if |s| == 1 {
      assert LineChar(s[0]);
      assert Words(s[1..]) == [];
      assert Words(s) == [[s[0]]];
    } else if s != "" {
      assert LineChar(s[0]) && LineChar(s[1]);
      if s[1] != ' ' {
        TidyTail(s, 1);
        TidyIsWords(s[1..]);
        LongerWord(s[0], Words(s[1..]));
        assert s == [s[0]] + s[1..];
      } else {
        assert s[1] != ' ' || s[1 + 1] != ' ' by { assert 1 < |s| - 1; }
        TidyTail(s, 2);
        TidyIsWords(s[2..]);
        assert LineChar(s[2]);
        assert s[2..][0] == s[2] && s[1..][1..] == s[2..];
        assert Words(s[1..]) == Words(s[2..]);
        assert s == [s[0]] + " " + s[2..];
      }
    }
  }

  lemma LongerWord(c: char, ws: seq<string>)
    requires ws != []
    ensures Spaced([[c] + ws[0]] + ws[1..]) == [c] + Spaced(ws)
  {
    var longer := [[c] + ws[0]] + ws[1..];
    assert longer[1..] == ws[1..];
    if |ws| > 1 {
      ConcatAssoc([c], ws[0], " ");
      ConcatAssoc([c], ws[0] + " ", Spaced(ws[1..]));
    }
  }

  /** A field is the words of what it was made from, one space apart, and cut if that is too long. */
  lemma FieldIsWords(s: string)
    ensures WholeField(s) == Spaced(Words(Select(Read, s)))
    ensures Field(s) == Shorten(Spaced(Words(Select(Read, s))))
  {
    var c := Clean(s, false);
    CleanKeeps(s, false);
    CollapseShape(c);
    TrimShape(LineChar, IsSpace, CollapseSpace(c));
    TidyIsWords(WholeField(s));
    var l := TrimLeft(IsSpace, CollapseSpace(c));
    assert All(LineChar, l);
    TrimRightWords(l);
    TrimLeftWords(CollapseSpace(c));
    CollapseWords(c);
    CleanWords(s);
  }
}
