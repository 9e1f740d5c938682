/**
 What the parser of an envelope answers for any content at all: which attributes it finds, what their
 values stand for, which of several it keeps, and when it refuses.
 */
module EnvelopeReads {
  import opened Options
  import opened SafeText
  import opened Envelope
  import opened Pieces

  // ---------- What an escaped value stands for ----------

  predicate Special(c: char) {
    c == '&' || c == '"' || c == '<' || c == '>'
  }

  /** The text begins with the escape of a special character. */
  predicate BeginsEscape(s: string) {
    "&quot;" <= s || "&amp;" <= s || "&lt;" <= s || "&gt;" <= s
  }

  /** An escape is read as its character, whatever follows. */
  lemma EscapeIsRead(c: char, s: string)
    requires Special(c) && EscapeChar(c) <= s
    ensures UnescapeAttr(s) == [c] + UnescapeAttr(s[|EscapeChar(c)|..])
  {
    assert s == EscapeChar(c) + s[|EscapeChar(c)|..];
    UnescapeStep(c, s[|EscapeChar(c)|..]);
  }

  /** What begins no escape is read as it is, an ampersand included. */
  lemma PlainIsRead(s: string)
    requires s != "" && !BeginsEscape(s)
    ensures UnescapeAttr(s) == [s[0]] + UnescapeAttr(s[1..])
  {
  }

  /** No escape begins anywhere in the text. */
  ghost predicate NoEscape(s: string) {
    forall i :: 0 <= i < |s| ==> !BeginsEscape(s[i..])
  }

  lemma NoEscapeTail(s: string)
    requires s != ""
    ensures NoEscape(s) <==> !BeginsEscape(s) && NoEscape(s[1..])
  {
    assert s[0..] == s;
    forall i | 0 <= i < |s[1..]| ensures s[1..][i..] == s[i + 1..] {}
    if !BeginsEscape(s) && NoEscape(s[1..]) {
      forall i | 0 <= i < |s| ensures !BeginsEscape(s[i..]) {
        if i > 0 { assert !BeginsEscape(s[1..][i - 1..]); }
      }
    }
    if NoEscape(s) {
      forall i | 0 <= i < |s[1..]| ensures !BeginsEscape(s[1..][i..]) {
        assert !BeginsEscape(s[i + 1..]);
      }
    }
  }

  lemma {:induction false} UnescapeLength(s: string)
    ensures |UnescapeAttr(s)| <= |s|
    ensures NoEscape(s) ==> UnescapeAttr(s) == s
    ensures !NoEscape(s) ==> |UnescapeAttr(s)| < |s|
    decreases |s|
  {
    if s != "" {
      NoEscapeTail(s);
      if BeginsEscape(s) {
        var c := if "&quot;" <= s then '"' else if "&amp;" <= s then '&' else if "&lt;" <= s then '<' else '>';
        EscapeIsRead(c, s);
        UnescapeLength(s[|EscapeChar(c)|..]);
      } else {
        PlainIsRead(s);
        UnescapeLength(s[1..]);
      }
    }
  }

  /** The values unescaping leaves alone are exactly those that hold no escape. */
  lemma UnescapeFixedPoints(s: string)
    ensures UnescapeAttr(s) == s <==> NoEscape(s)
  {
    UnescapeLength(s);
  }

  // ---------- Which attributes are found ----------

  /** A name, an equals sign and a quoted value without a quote in it stand at the head of the text. */
  predicate Begins(s: string, m: AttrMatch) {
    m.Printable() && m.Print() <= s
  }

  /** There is one way at most to read an attribute at a place, and the matcher takes it. */
  lemma AttrAtDecides(s: string, m: AttrMatch)
    ensures AttrAt(s) == Some(m) <==> Begins(s, m)
  {
    if Begins(s, m) {
      assert s == m.Print() + s[|m.Print()|..];
      AttrAtPrinted(m, s[|m.Print()|..]);
    }
    if AttrAt(s) == Some(m) {
      var n := Run(NameChar, s);
      var v := QuotedAt(s[n..]).value;
      assert m == AttrMatch(s[..n], v);
      QuotedShape(s[n..], v);
      assert s == s[..n] + s[n..];
    }
  }

  lemma QuotedShape(s: string, v: string)
    requires QuotedAt(s) == Some(v)
    ensures All(NotQuote, v) && Quoted(v) <= s
  {
    var n := Run(NotQuote, s[2..]);
    assert v == s[2..2 + n] == s[2..][..n];
    assert !NotQuote(s[2..][n]) && s[2 + n] == '"';
    assert s[..3 + n] == Quoted(v);
  }

  /** The places of some attributes of a text: one after another without overlap, and every place an
      attribute begins at is theirs or inside one of them. */
  ghost predicate FoundAt(s: string, ps: seq<nat>, ms: seq<AttrMatch>) {
    && |ps| == |ms|
    && (forall k :: 0 <= k < |ms| ==> ps[k] + ms[k].Len() <= |s| && Begins(s[ps[k]..], ms[k]))
    && (forall k :: 0 <= k < |ms| - 1 ==> ps[k] + ms[k].Len() <= ps[k + 1])
    && (forall q: nat, m :: q <= |s| && Begins(s[q..], m) ==> Covered(ps, ms, q))
  }

  ghost predicate Covered(ps: seq<nat>, ms: seq<AttrMatch>, q: nat)
    requires |ps| == |ms|
  {
    exists k :: 0 <= k < |ms| && ps[k] <= q < ps[k] + ms[k].Len()
  }

  function Shifted(ps: seq<nat>, d: nat): seq<nat> {
    seq(|ps|, k requires 0 <= k < |ps| => ps[k] + d)
  }

  lemma CoveredShifted(ps: seq<nat>, ms: seq<AttrMatch>, d: nat, q: nat)
    requires |ps| == |ms| && Covered(ps, ms, q)
    ensures Covered(Shifted(ps, d), ms, q + d)
  {
    var k :| 0 <= k < |ms| && ps[k] <= q < ps[k] + ms[k].Len();
    assert Shifted(ps, d)[k] == ps[k] + d;
  }

  /** Attributes found further on are found in the whole text. */
  lemma FoundLater(s: string, d: nat, ps: seq<nat>, ms: seq<AttrMatch>)
    requires d <= |s| && FoundAt(s[d..], ps, ms)
    ensures var qs := Shifted(ps, d);
            && (forall k :: 0 <= k < |ms| ==> d <= qs[k] && qs[k] + ms[k].Len() <= |s| && Begins(s[qs[k]..], ms[k]))
            && (forall k :: 0 <= k < |ms| - 1 ==> qs[k] + ms[k].Len() <= qs[k + 1])
            && (forall q: nat, m :: d <= q <= |s| && Begins(s[q..], m) ==> Covered(qs, ms, q))
  {
    forall k | 0 <= k < |ms| ensures Begins(s[Shifted(ps, d)[k]..], ms[k]) {
      assert s[d..][ps[k]..] == s[ps[k] + d..];
    }
    forall q: nat, m | d <= q <= |s| && Begins(s[q..], m) ensures Covered(Shifted(ps, d), ms, q) {
      assert s[d..][q - d..] == s[q..];
      CoveredShifted(ps, ms, d, q - d);
    }
  }

  lemma CoveredFirst(p: nat, m: AttrMatch, ps: seq<nat>, ms: seq<AttrMatch>, q: nat)
    requires |ps| == |ms|
    ensures p <= q < p + m.Len() || Covered(ps, ms, q) ==> Covered([p] + ps, [m] + ms, q)
  {
    var qs, all := [p] + ps, [m] + ms;
    if p <= q < p + m.Len() {
      assert qs[0] <= q < qs[0] + all[0].Len();
    } else if Covered(ps, ms, q) {
      var k :| 0 <= k < |ms| && ps[k] <= q < ps[k] + ms[k].Len();
      assert qs[k + 1] <= q < qs[k + 1] + all[k + 1].Len();
    }
  }

  /** One attribute in front of others that begin after it. */
  lemma PlacesFirst(s: string, m: AttrMatch, ps: seq<nat>, ms: seq<AttrMatch>)
    requires Begins(s, m) && m.Len() <= |s| && |ps| == |ms|
    requires forall k :: 0 <= k < |ms| ==> m.Len() <= ps[k] && ps[k] + ms[k].Len() <= |s| && Begins(s[ps[k]..], ms[k])
    requires forall k :: 0 <= k < |ms| - 1 ==> ps[k] + ms[k].Len() <= ps[k + 1]
    ensures var qs, all := [0] + ps, [m] + ms;
            && (forall k :: 0 <= k < |all| ==> qs[k] + all[k].Len() <= |s| && Begins(s[qs[k]..], all[k]))
            && (forall k :: 0 <= k < |all| - 1 ==> qs[k] + all[k].Len() <= qs[k + 1])
  {
    var qs, all := [0] + ps, [m] + ms;
    assert s[0..] == s;
    forall k | 0 <= k < |all| ensures qs[k] + all[k].Len() <= |s| && Begins(s[qs[k]..], all[k]) {
      if k > 0 { assert qs[k] == ps[k - 1] && all[k] == ms[k - 1]; }
    }
    forall k | 0 <= k < |all| - 1 ensures qs[k] + all[k].Len() <= qs[k + 1] {
      assert qs[k + 1] == ps[k];
      if k > 0 { assert qs[k] == ps[k - 1] && all[k] == ms[k - 1]; }
    }
  }

  lemma FoundFirst(s: string, m: AttrMatch, ps: seq<nat>, ms: seq<AttrMatch>)
    requires Begins(s, m) && m.Len() <= |s| && FoundAt(s[m.Len()..], ps, ms)
    ensures FoundAt(s, [0] + Shifted(ps, m.Len()), [m] + ms)
  {
    FoundLater(s, m.Len(), ps, ms);
    PlacesFirst(s, m, Shifted(ps, m.Len()), ms);
    forall q: nat, x | q <= |s| && Begins(s[q..], x) ensures Covered([0] + Shifted(ps, m.Len()), [m] + ms, q) {
      CoveredFirst(0, m, Shifted(ps, m.Len()), ms, q);
    }
  }

  lemma FoundSkipping(s: string, ps: seq<nat>, ms: seq<AttrMatch>)
    requires s != "" && AttrAt(s).None? && FoundAt(s[1..], ps, ms)
    ensures FoundAt(s, Shifted(ps, 1), ms)
  {
    FoundLater(s, 1, ps, ms);
    forall q: nat, m | q <= |s| && Begins(s[q..], m) ensures Covered(Shifted(ps, 1), ms, q) {
      AttrAtDecides(s, m);
      assert s[0..] == s;
    }
  }

  /** The scan finds the attributes leftmost first and leaves out none it could have found. */
  lemma {:induction false} AttrsFound(s: string) returns (ps: seq<nat>)
    ensures FoundAt(s, ps, AttrMatches(s))
    decreases |s|
  {
    if s == "" {
      ps := [];
      forall q: nat, m | q <= |s| ensures !Begins(s[q..], m) {
        assert |m.Print()| > |s[q..]|;
      }
    } else {
      match AttrAt(s)
      case Some(m) =>
        AttrAtDecides(s, m);
        ps := AttrsFound(s[m.Len()..]);
        FoundFirst(s, m, ps, AttrMatches(s[m.Len()..]));
        ps := [0] + Shifted(ps, m.Len());
      case None =>
        ps := AttrsFound(s[1..]);
        FoundSkipping(s, ps, AttrMatches(s[1..]));
        ps := Shifted(ps, 1);
    }
  }

  // ---------- What an element is ----------

  predicate IsBlank(c: char) { c == ' ' || c == '\t' || c == '\n' || c == '\r' || c == 12 as char }

  /** Spaces, the opening tag with some space and attributes without a bracket in them, a newline or not, any
      text, a newline or not, the closing tag, and spaces. */
  ghost predicate MadeOf(c: string, lead: string, gap: string, attrs: string, first: string, text: string,
                         last: string, trail: string) {
    && c == lead + (OPEN_TAG + (gap + (attrs + (">" + (first + (text + (last + (CLOSE_TAG + trail))))))))
    && All(IsBlank, lead) && All(IsBlank, gap) && gap != "" && All(IsBlank, trail)
    && (forall i :: 0 <= i < |attrs| ==> attrs[i] != '>')
    && (first == "" || first == "\n") && (last == "" || last == "\n")
  }

  lemma TextLaidOutParts(close: string, s: string, l: Layout)
      returns (first: string, text: string, last: string, trail: string)
    requires TextLaidOut(close, s, l)
    ensures s == first + (text + (last + (close + trail))) && AllRegexSpace(trail)
    ensures (first == "" || first == "\n") && (last == "" || last == "\n")
  {
    var a := l.First();
    var b := a + l.text;
    var d := b + l.Last();
    first, text, last, trail := s[..a], s[a..b], s[b..d], s[d..][|close|..];
    assert s[d..] == close + trail;
    CutInFour(s, a, b, d);
  }

  lemma CutInTwo(s: string, a: nat, b: nat)
    requires a <= b <= |s|
    ensures s[a..] == s[a..b] + s[b..]
  {
  }

  lemma CutInFour(s: string, a: nat, b: nat, d: nat)
    requires a <= b <= d <= |s|
    ensures s == s[..a] + (s[a..b] + (s[b..d] + s[d..]))
  {
    CutInTwo(s, b, d);
    CutInTwo(s, a, b);
    assert s == s[..a] + s[a..];
  }

  lemma PartsLaidOut(close: string, first: string, text: string, last: string, trail: string) returns (l: Layout)
    requires (first == "" || first == "\n") && (last == "" || last == "\n") && AllRegexSpace(trail)
    ensures TextLaidOut(close, first + (text + (last + (close + trail))), l)
    ensures l.lead == 0 && l.gap == 0 && l.attrs == 0
  {
    l := Layout(0, 0, 0, first == "\n", |text|, last == "\n");
    var s := first + (text + (last + (close + trail)));
    assert s[|first| + |text| + |last|..] == close + trail;
    assert (close + trail)[|close|..] == trail;
  }

  lemma BlankIsSpace(s: string)
    ensures All(IsBlank, s) <==> AllRegexSpace(s)
  {
    forall i | 0 <= i < |s| ensures IsBlank(s[i]) <==> RegexSpace(s[i]) {}
  }

  lemma LaidOutIsMade(open: string, close: string, c: string, l: Layout)
      returns (lead: string, gap: string, attrs: string, rest: string)
    requires LaidOut(open, close, c, l)
    ensures c == lead + (open + (gap + (attrs + (">" + rest)))) && TextLaidOut(close, rest, l)
    ensures AllRegexSpace(lead) && AllRegexSpace(gap) && gap != "" && All(NotClosing, attrs)
  {
    lead := c[..l.lead];
    var r := c[l.lead..][|open|..];
    assert c[l.lead..] == open + r;
    gap, attrs := r[..l.gap], r[l.gap..l.gap + l.attrs];
    rest := r[l.gap + l.attrs + 1..];
    assert r == gap + (attrs + (">" + rest));
  }

  lemma RestCut(gap: string, attrs: string, rest: string)
    ensures var r := gap + (attrs + (">" + rest)); var n := |gap| + |attrs|;
            && n < |r| && r[..|gap|] == gap && r[|gap|..n] == attrs && r[n] == '>' && r[n + 1..] == rest
  {
    var tail := attrs + (">" + rest);
    assert (gap + tail)[|gap|..] == tail;
    assert tail[..|attrs|] == attrs && tail[|attrs|..] == ">" + rest;
  }

  lemma RestIsLaidOut(close: string, gap: string, attrs: string, rest: string, l: Layout)
    requires AllRegexSpace(gap) && gap != "" && All(NotClosing, attrs) && TextLaidOut(close, rest, l)
    requires l.gap == |gap| && l.attrs == |attrs|
    ensures RestLaidOut(close, gap + (attrs + (">" + rest)), l)
  {
    RestCut(gap, attrs, rest);
  }

  lemma MadeIsLaidOut(open: string, close: string, lead: string, gap: string, attrs: string, rest: string, t: Layout)
      returns (l: Layout)
    requires AllRegexSpace(lead) && AllRegexSpace(gap) && gap != "" && All(NotClosing, attrs)
    requires TextLaidOut(close, rest, t)
    ensures LaidOut(open, close, lead + (open + (gap + (attrs + (">" + rest)))), l)
  {
    l := Layout(|lead|, |gap|, |attrs|, t.firstBreak, t.text, t.lastBreak);
    var r := gap + (attrs + (">" + rest));
    RestIsLaidOut(close, gap, attrs, rest, l);
    var c := lead + (open + r);
    assert c[..|lead|] == lead && c[|lead|..] == open + r && (open + r)[|open|..] == r;
  }

  /** The contents that are laid out as an element are exactly those made of these parts. */
  lemma ElementsAre(c: string)
    ensures IsElement(c) <==>
            exists lead, gap, attrs, first, text, last, trail :: MadeOf(c, lead, gap, attrs, first, text, last, trail)
  {
    if IsElement(c) {
      var l: Layout :| LaidOut(OPEN_TAG, CLOSE_TAG, c, l);
      var lead, gap, attrs, rest := LaidOutIsMade(OPEN_TAG, CLOSE_TAG, c, l);
      var first, text, last, trail := TextLaidOutParts(CLOSE_TAG, rest, l);
      BlankIsSpace(lead);
      BlankIsSpace(gap);
      BlankIsSpace(trail);
      assert MadeOf(c, lead, gap, attrs, first, text, last, trail);
    }
    if exists lead, gap, attrs, first, text, last, trail :: MadeOf(c, lead, gap, attrs, first, text, last, trail) {
      var lead, gap, attrs, first, text, last, trail :| MadeOf(c, lead, gap, attrs, first, text, last, trail);
      BlankIsSpace(lead);
      BlankIsSpace(gap);
      BlankIsSpace(trail);
      var t := PartsLaidOut(CLOSE_TAG, first, text, last, trail);
      var l := MadeIsLaidOut(OPEN_TAG, CLOSE_TAG, lead, gap, attrs, first + (text + (last + (CLOSE_TAG + trail))), t);
    }
  }

  // ---------- What is kept of them ----------

  ghost predicate IsNamed(ms: seq<AttrMatch>, name: string) {
    exists k :: 0 <= k < |ms| && ms[k].name == name
  }

  /** The value of a name: what its last attribute stands for, or what there was before without one. */
  ghost predicate Reads(ms: seq<AttrMatch>, name: string, before: string, v: string) {
    if IsNamed(ms, name) then
      exists k :: 0 <= k < |ms| && ms[k].name == name && v == UnescapeAttr(ms[k].value) && !IsNamed(ms[k + 1..], name)
    else v == before
  }

  lemma ReadsFirst(m: AttrMatch, rest: seq<AttrMatch>, name: string, before: string, v: string)
    requires Reads(rest, name, if m.name == name then UnescapeAttr(m.value) else before, v)
    ensures Reads([m] + rest, name, before, v)
  {
    var all := [m] + rest;
    assert all[1..] == rest;
    if IsNamed(rest, name) {
      var k :| 0 <= k < |rest| && rest[k].name == name && v == UnescapeAttr(rest[k].value)
               && !IsNamed(rest[k + 1..], name);
      assert all[k + 1] == rest[k] && all[k + 2..] == rest[k + 1..];
    } else if m.name == name {
      assert all[0].name == name && !IsNamed(all[0 + 1..], name);
    } else {
      forall k | 0 <= k < |all| ensures all[k].name != name {
        if k > 0 { assert all[k] == rest[k - 1]; }
      }
    }
  }

  /** Each field is read from the last attribute of its own name, and from no other. */
  lemma {:induction false} FieldsRead(env: Envelope, ms: seq<AttrMatch>)
    ensures var r := SetAttrs(env, ms);
            && Reads(ms, "from", env.from, r.from)
            && Reads(ms, "from-name", env.fromName, r.fromName)
            && Reads(ms, "from-mode", env.fromMode, r.fromMode)
            && r.text == env.text
    decreases |ms|
  {
    if ms != [] {
      var r, next := SetAttrs(env, ms), SetAttr(env, ms[0]);
      FieldsRead(next, ms[1..]);
      NamesDiffer();
      assert ms == [ms[0]] + ms[1..];
      ReadsFirst(ms[0], ms[1..], "from", env.from, r.from);
      ReadsFirst(ms[0], ms[1..], "from-name", env.fromName, r.fromName);
      ReadsFirst(ms[0], ms[1..], "from-mode", env.fromMode, r.fromMode);
    }
  }

  lemma NamesDiffer()
    ensures "from" != "from-name" && "from" != "from-mode" && "from-name" != "from-mode"
  {
    assert "from-name"[5] == 'n' && "from-mode"[5] == 'm';
  }

  // ---------- The parser ----------

  /** The layout of the content the pattern chooses among all there are. */
  ghost predicate Chosen(content: string, l: Layout) {
    && LaidOut(OPEN_TAG, CLOSE_TAG, content, l)
    && forall other: Layout :: LaidOut(OPEN_TAG, CLOSE_TAG, content, other) ==> Preferred(l, other)
  }

  lemma ChosenLayout(content: string) returns (l: Layout)
    requires IsElement(content)
    ensures Chosen(content, l) && MatchElement(content) == Some(Captured(OPEN_TAG, content, l))
  {
    MatchElementDecides(content);
    l :| LaidOut(OPEN_TAG, CLOSE_TAG, content, l) && MatchElement(content).value == Captured(OPEN_TAG, content, l)
         && forall other: Layout :: LaidOut(OPEN_TAG, CLOSE_TAG, content, other) ==> Preferred(l, other);
  }

  /** What becomes of an element, by its attributes and its text. */
  lemma ElementReads(content: string, m: ElementMatch) returns (ps: seq<nat>, ms: seq<AttrMatch>, name: string)
    requires MatchElement(content) == Some(m)
    ensures FoundAt(m.attrs, ps, ms) && Reads(ms, "from-name", "", name)
    ensures !Parse(content).NoElement? && (Parse(content).Unattributed? <==> name == "")
    ensures Parse(content).Parsed? ==>
              var env := Parse(content).env;
              && Reads(ms, "from", "", env.from) && env.fromName == name && Reads(ms, "from-mode", "", env.fromMode)
              && env.text == m.text
  {
    ms := AttrMatches(m.attrs);
    ps := AttrsFound(m.attrs);
    FieldsRead(Envelope("", "", "", m.text), ms);
    name := SetAttrs(Envelope("", "", "", m.text), ms).fromName;
  }

  /** For every content: there is no element exactly when it is not laid out as one. Otherwise it is
      refused as unattributed exactly when the last attribute named from-name stands for nothing, or there
      is none; and if it is not, every field is what the last attribute of its name stands for, nothing
      without one, and the text is the element's. */
  lemma ParseDecides(content: string) returns (l: Layout, ps: seq<nat>, ms: seq<AttrMatch>, name: string)
    ensures Parse(content).NoElement? <==> !IsElement(content)
    ensures IsElement(content) ==>
              && Chosen(content, l) && FoundAt(Captured(OPEN_TAG, content, l).attrs, ps, ms)
              && Reads(ms, "from-name", "", name) && (Parse(content).Unattributed? <==> name == "")
    ensures Parse(content).Parsed? ==>
              var env := Parse(content).env;
              && Reads(ms, "from", "", env.from) && env.fromName == name && Reads(ms, "from-mode", "", env.fromMode)
              && env.text == Captured(OPEN_TAG, content, l).text
  {
    MatchElementDecides(content);
    l, ps, ms, name := Layout(0, 0, 0, false, 0, false), [], [], "";
    if IsElement(content) {
      l := ChosenLayout(content);
      ps, ms, name := ElementReads(content, Captured(OPEN_TAG, content, l));
    }
  }

  // ---------- The printer ----------

  /** The pieces of one attribute. */
  function AttrPieces(name: string, value: string): seq<string> {
    [name, "=\"", EscapeAttr(value), "\""]
  }

  lemma AttrFlat(name: string, value: string)
    ensures Flat(AttrPieces(name, value)) == AttrMatch(name, EscapeAttr(value)).Print()
  {
    FlatFour(name, "=\"", EscapeAttr(value), "\"");
    ConcatAssoc(name, "=\"", EscapeAttr(value));
    ConcatAssoc(name, "=\"" + EscapeAttr(value), "\"");
  }

  function ElementPieces(from: string, name: string, mode: string, text: string): seq<string> {
    ["<", TAG_NAME, " "] + (AttrPieces("from", from) + ([" "] + (AttrPieces("from-name", name)
      + ([" "] + (AttrPieces("from-mode", mode) + [">", "\n", text, "\n", "</", TAG_NAME, ">"])))))
  }

  lemma FlatOne(a: string)
    ensures Flat([a]) == a
  {
    FlatCons(a, []);
    assert [a] + [] == [a] && a + "" == a;
  }

  lemma AttrsFlat(from: string, name: string, mode: string, rest: seq<string>)
    ensures Flat(AttrPieces("from", from) + ([" "] + (AttrPieces("from-name", name)
                   + ([" "] + (AttrPieces("from-mode", mode) + rest)))))
         == Attrs(from, name, mode) + Flat(rest)
  {
    AttrFlat("from", from);
    AttrFlat("from-name", name);
    AttrFlat("from-mode", mode);
    FlatOne(" ");
    var a, b, c := AttrPieces("from", from), AttrPieces("from-name", name), AttrPieces("from-mode", mode);
    FlatAppend(c, rest);
    FlatAppend([" "], c + rest);
    FlatAppend(b, [" "] + (c + rest));
    FlatAppend([" "], b + ([" "] + (c + rest)));
    FlatAppend(a, [" "] + (b + ([" "] + (c + rest))));
    AttrsGlue(Flat(a), Flat(b), Flat(c), Flat(rest));
  }

  lemma AttrsGlue(a: string, b: string, c: string, rest: string)
    ensures a + (" " + (b + (" " + (c + rest)))) == (a + (" " + (b + (" " + c)))) + rest
  {
    ConcatAssoc(" ", c, rest);
    ConcatAssoc(b, " " + c, rest);
    ConcatAssoc(" ", b + (" " + c), rest);
    ConcatAssoc(a, " " + (b + (" " + c)), rest);
  }

  lemma TextFlat(tag: string, text: string)
    ensures Flat([">", "\n", text, "\n", "</", tag, ">"]) == ">" + ("\n" + text + "\n" + ("</" + tag + ">"))
  {
    FlatThree("</", tag, ">");
    ConcatAssoc("</", tag, ">");
    FlatFour(">", "\n", text, "\n");
    FlatAppend([">", "\n", text, "\n"], ["</", tag, ">"]);
    assert [">", "\n", text, "\n"] + ["</", tag, ">"] == [">", "\n", text, "\n", "</", tag, ">"];
    ConcatAssoc(">", "\n", text);
    ConcatAssoc(">", "\n" + text, "\n");
    ConcatAssoc(">", "\n" + text + "\n", "</" + tag + ">");
  }

  lemma OpenFlat(tag: string, rest: seq<string>)
    ensures Flat(["<", tag, " "] + rest) == ("<" + tag) + (" " + Flat(rest))
  {
    FlatThree("<", tag, " ");
    FlatAppend(["<", tag, " "], rest);
    ConcatAssoc("<", tag, " ");
    ConcatAssoc("<" + tag, " ", Flat(rest));
  }

  /** The element that is printed, to the last character. */
  lemma PrintsExactly(from: string, name: string, mode: string, text: string)
    ensures Element(Attrs(from, name, mode), text) == Flat(ElementPieces(from, name, mode, text))
  {
    var end := [">", "\n", text, "\n", "</", TAG_NAME, ">"];
    TextFlat(TAG_NAME, text);
    AttrsFlat(from, name, mode, end);
    OpenFlat(TAG_NAME, AttrPieces("from", from) + ([" "] + (AttrPieces("from-name", name)
      + ([" "] + (AttrPieces("from-mode", mode) + end)))));
  }

  /** Which refusal the printer gives, the first in this order: no address, no name, an address the
      boundary does not accept, a name of which nothing is left. */
  lemma FrameRefusals(o: FrameOptions, msgId: string)
    ensures var r, checked := FrameFor(o, msgId), CheckField(o.fromAddress);
            && (r == Refused(NoAddress) <==> o.fromAddress == "")
            && (r == Refused(NoName) <==> o.fromAddress != "" && o.fromName == "")
            && (forall why :: r == Refused(BadAddress(why)) <==>
                  o.fromAddress != "" && o.fromName != "" && checked == why && why != Accepted)
            && (r == Refused(NameEmptyOnceCleaned) <==>
                  checked == Accepted && o.fromName != "" && Field(o.fromName) == "")
  {
    CheckFieldAccepts(o.fromAddress);
    FieldFixedPoints("");
  }

  lemma FrameFields(address: string, name: string, mode: string, priority: string, text: string, msgId: string)
    ensures var f := FrameOf(address, name, mode, priority, text, msgId);
            && f.msgV == 1 && f.msgId == msgId && f.kind == "user" && f.role == "user" && f.from == address
            && f.priority == priority && f.content == Element(Attrs(address, name, mode), text)
  {
  }

  lemma FrameBuilt(o: FrameOptions, msgId: string)
    requires FrameFor(o, msgId).Built?
    ensures FrameFor(o, msgId).frame ==
            FrameOf(o.fromAddress, Field(o.fromName), Field(OrDefault(o.fromMode, "prompting")),
                    OrDefault(o.priority, "next"), Body(o.text), msgId)
  {
  }

  /** A frame that is built says whom to reply to, carries the version of the protocol, goes next unless
      something else was asked for, and holds exactly this element. */
  lemma FrameIs(o: FrameOptions, msgId: string, mode: string)
    requires FrameFor(o, msgId).Built?
    requires mode == Field(if o.fromMode == "" then "prompting" else o.fromMode)
    ensures var f := FrameFor(o, msgId).frame;
            && f.msgV == 1 && f.msgId == msgId && f.kind == "user" && f.role == "user" && f.from == o.fromAddress
            && f.priority == (if o.priority == "" then "next" else o.priority)
            && f.content == Flat(ElementPieces(o.fromAddress, Field(o.fromName), mode, Body(o.text)))
  {
    FrameBuilt(o, msgId);
    FrameFields(o.fromAddress, Field(o.fromName), mode, OrDefault(o.priority, "next"), Body(o.text), msgId);
    PrintsExactly(o.fromAddress, Field(o.fromName), mode, Body(o.text));
  }
}
