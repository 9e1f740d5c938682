/**
 The attribution element around a message: the printer `NewFrame` and the parser
 `ParseEnvelope`, with the two regular expressions of the parser as explicit matchers.
 */
module Envelope {
  import opened Options
  import opened SafeText

  const OPEN_TAG := "<" + TAG_NAME
  const CLOSE_TAG := "</" + TAG_NAME + ">"

  // ---------- Attribute values ----------

  function EscapeChar(c: char): string {
    if c == '&' then "&amp;"
    else if c == '"' then "&quot;"
    else if c == '<' then "&lt;"
    else if c == '>' then "&gt;"
    else [c]
  }

  function EscapeAttr(s: string): string {
    if s == "" then "" else EscapeChar(s[0]) + EscapeAttr(s[1..])
  }

  /** The replacer takes the first pattern, in argument order, that matches at a position. */
  function UnescapeAttr(s: string): string {
    if s == "" then ""
    else if s[0] != '&' then [s[0]] + UnescapeAttr(s[1..])
    else if "&quot;" <= s then "\"" + UnescapeAttr(s[6..])
    else if "&amp;" <= s then "&" + UnescapeAttr(s[5..])
    else if "&lt;" <= s then "<" + UnescapeAttr(s[4..])
    else if "&gt;" <= s then ">" + UnescapeAttr(s[4..])
    else "&" + UnescapeAttr(s[1..])
  }

  lemma UnescapeStep(c: char, r: string)
    ensures UnescapeAttr(EscapeChar(c) + r) == [c] + UnescapeAttr(r)
  {
    var e := EscapeChar(c);
    assert (e + r)[|e|..] == r && (e + r)[..|e|] == e;
    if c == '&' {
      assert (e + r)[1] == 'a';
    } else if c == '<' {
      assert (e + r)[1] == 'l';
    } else if c == '>' {
      assert (e + r)[1] == 'g';
    }
  }

  lemma {:induction false} UnescapeUndoesEscape(s: string)
    ensures UnescapeAttr(EscapeAttr(s)) == s
  {
    if s != "" {
      UnescapeUndoesEscape(s[1..]);
      UnescapeStep(s[0], EscapeAttr(s[1..]));
    }
  }

  predicate AttrSafe(c: char) { c != '"' && c != '<' && c != '>' }

  /** An escaped value cannot end its attribute or its element. */
  lemma {:induction false} EscapedIsSafe(s: string)
    ensures All(AttrSafe, EscapeAttr(s))
  {
    if s != "" {
      EscapedIsSafe(s[1..]);
    }
  }

  // ---------- attrRe ----------

  /** The class [a-zA-Z-]. */
  predicate NameChar(c: char) {
    'a' <= c <= 'z' || 'A' <= c <= 'Z' || c == '-'
  }

  /** The length of the longest run of characters in `p` at the head of `s`. */
  function Run(p: char -> bool, s: string): (n: nat)
    ensures n <= |s| && All(p, s[..n])
    ensures n < |s| ==> !p(s[n])
  {
    if s != "" && p(s[0]) then
      var n := 1 + Run(p, s[1..]);
      assert s[..n] == [s[0]] + s[1..][..n - 1];
      n
    else 0
  }

  predicate NotQuote(c: char) { c != '"' }

  datatype AttrMatch = AttrMatch(name: string, value: string) {
    function Len(): nat { |name| + |value| + 3 }

    predicate Printable() {
      name != "" && All(NameChar, name) && All(NotQuote, value)
    }

    function Print(): string { name + Quoted(value) }
  }

  /** An equals sign and a quoted value at the head of `s`: the value, which ends at the next quote. */
  function QuotedAt(s: string): (v: Option<string>)
    ensures v.Some? ==> |v.value| + 3 <= |s|
  {
    if |s| < 2 || s[0] != '=' || s[1] != '"' then None
    else
      var n := Run(NotQuote, s[2..]);
      if 2 + n == |s| then None else Some(s[2..2 + n])
  }

  /** The match of the attribute pattern at the head of `s`: the longest name and a quoted value.
      A shorter name would not be followed by the equals sign, so the pattern has no other way
      to match there. */
  function AttrAt(s: string): (m: Option<AttrMatch>)
    ensures m.Some? ==> m.value.Len() <= |s|
  {
    var n := Run(NameChar, s);
    if n == 0 then None
    else match QuotedAt(s[n..])
      case Some(v) => Some(AttrMatch(s[..n], v))
      case None => None
  }

  /** FindAllStringSubmatch: leftmost matches, each search resuming after the last one. */
  function AttrMatches(s: string): seq<AttrMatch> {
    if s == "" then []
    else match AttrAt(s)
      case Some(m) => [m] + AttrMatches(s[m.Len()..])
      case None => AttrMatches(s[1..])
  }

  function Quoted(value: string): string {
    "=\"" + value + "\""
  }

  lemma {:induction false} RunIs(p: char -> bool, a: string, b: string)
    requires All(p, a) && (b != "" ==> !p(b[0]))
    ensures Run(p, a + b) == |a|
  {
    if a == "" {
      assert a + b == b;
    } else {
      assert (a + b)[1..] == a[1..] + b;
      RunIs(p, a[1..], b);
    }
  }

  lemma QuotedAtQuoted(value: string, rest: string)
    requires All(NotQuote, value)
    ensures QuotedAt(Quoted(value) + rest) == Some(value)
  {
    var s := Quoted(value) + rest;
    assert s[2..] == value + ("\"" + rest);
    RunIs(NotQuote, value, "\"" + rest);
    assert s[2..2 + |value|] == value;
  }

  lemma AttrAtPrinted(m: AttrMatch, rest: string)
    requires m.Printable()
    ensures AttrAt(m.Print() + rest) == Some(m)
  {
    var s, tail := m.Print() + rest, Quoted(m.value) + rest;
    assert s == m.name + tail;
    RunIs(NameChar, m.name, tail);
    assert s[|m.name|..] == tail;
    QuotedAtQuoted(m.value, rest);
  }

  lemma AttrMatchesPrinted(m: AttrMatch, rest: string)
    requires m.Printable()
    ensures AttrMatches(m.Print() + rest) == [m] + AttrMatches(rest)
  {
    AttrAtPrinted(m, rest);
    assert (m.Print() + rest)[m.Len()..] == rest;
  }

  lemma AttrMatchesSpace(rest: string)
    ensures AttrMatches(" " + rest) == AttrMatches(rest)
  {
    assert (" " + rest)[1..] == rest;
    assert AttrAt(" " + rest).None?;
  }

  // ---------- envelopeRe ----------

  predicate NotClosing(c: char) { c != '>' }

  datatype ElementMatch = ElementMatch(attrs: string, text: string)

  /** The end of the element: its closing tag, then nothing but spaces. */
  predicate ClosesAt(close: string, s: string) {
    close <= s && AllRegexSpace(s[|close|..])
  }

  /** `\n?` in front of the closing tag, taken when it can be. */
  predicate TextEndsAt(close: string, s: string) {
    (s != "" && s[0] == '\n' && ClosesAt(close, s[1..])) || ClosesAt(close, s)
  }

  /** The lazy text group: the first place from `k` on where the rest of the pattern matches. */
  function ShortestText(close: string, s: string, k: nat): (n: Option<nat>)
    requires k <= |s|
    ensures n.Some? ==> k <= n.value <= |s| && TextEndsAt(close, s[n.value..])
    ensures forall j :: k <= j < (if n.Some? then n.value else |s| + 1) ==> !TextEndsAt(close, s[j..])
    decreases |s| - k
  {
    if TextEndsAt(close, s[k..]) then Some(k)
    else if k == |s| then None
    else ShortestText(close, s, k + 1)
  }

  /** The text group after the opening tag. The newline there is taken when it can be; only if
      nothing matches after it is it left to the text. */
  function MatchText(close: string, s: string): Option<string> {
    var viaNewline := if s != "" && s[0] == '\n' then ShortestText(close, s[1..], 0) else None;
    match viaNewline
    case Some(n) => Some(s[1..][..n])
    case None =>
      match ShortestText(close, s, 0)
      case Some(n) => Some(s[..n])
      case None => None
  }

  datatype Span = Span(from: nat, end: nat)

  /** Where the attributes run after the opening tag: past its spaces, up to the bracket. */
  function AttrSpan(r: string): (o: Option<Span>)
    ensures o.Some? ==> 0 < o.value.from <= o.value.end < |r|
  {
    var w := Run(RegexSpace, r);
    var a := Run(NotClosing, r[w..]);
    if w == 0 || w + a == |r| then None else Some(Span(w, w + a))
  }

  /** What follows the opening tag: the attributes and the text. */
  function MatchRest(close: string, r: string): Option<ElementMatch> {
    match AttrSpan(r)
    case None => None
    case Some(sp) =>
      match MatchText(close, r[sp.end + 1..])
      case Some(text) => Some(ElementMatch(r[sp.from..sp.end], text))
      case None => None
  }

  function MatchTagged(open: string, close: string, content: string): Option<ElementMatch> {
    var s := content[Run(RegexSpace, content)..];
    if open <= s then MatchRest(close, s[|open|..]) else None
  }

  function MatchElement(content: string): Option<ElementMatch> {
    MatchTagged(OPEN_TAG, CLOSE_TAG, content)
  }

  function Tagged(open: string, close: string, attrs: string, text: string): string {
    open + (" " + (attrs + (">" + ("\n" + text + "\n" + close))))
  }

  function Element(attrs: string, text: string): string {
    Tagged(OPEN_TAG, CLOSE_TAG, attrs, text)
  }

  /** The closing tag stands at no position of the text. */
  predicate Free(close: string, text: string) {
    forall i :: 0 <= i < |text| ==> !(close <= text[i..])
  }

  lemma NoEarlyEnd(close: string, text: string, rest: string, j: nat)
    requires forall i :: 0 <= i < |close| ==> close[i] != '\n'
    requires Free(close, text) && j < |text|
    ensures !(close <= (text + "\n" + rest)[j..])
  {
    var u := (text + "\n" + rest)[j..];
    if j + |close| <= |text| {
      assert text[j..] == u[..|text| - j];
      assert !(close <= text[j..]);
    } else {
      assert u[|text| - j] == '\n';
      assert close[|text| - j] != u[|text| - j];
    }
  }

  lemma TextRoundTrip(close: string, text: string)
    requires close != "" && forall i :: 0 <= i < |close| ==> close[i] != '\n'
    requires Free(close, text)
    ensures MatchText(close, "\n" + text + "\n" + close) == Some(text)
  {
    var s := text + "\n" + close;
    assert ("\n" + text + "\n" + close)[1..] == s;
    assert TextEndsAt(close, s[|text|..]) by {
      assert s[|text|..][1..] == close;
      assert close[|close|..] == "";
    }
    forall j | 0 <= j < |text| ensures !TextEndsAt(close, s[j..]) {
      NoEarlyEnd(close, text, close, j);
      if j + 1 < |text| {
        NoEarlyEnd(close, text, close, j + 1);
        assert s[j..][1..] == s[j + 1..];
      } else {
        assert s[j..][1..][0] == '\n' && close[0] != '\n';
      }
    }
    assert ShortestText(close, s, 0) == Some(|text|);
    assert s[..|text|] == text;
  }

  /** Text in which no tag can be read holds no closing tag. */
  lemma TagFreeIsFree(text: string)
    requires TagFree(text)
    ensures Free(CLOSE_TAG, text)
  {
    forall i | 0 <= i < |text| ensures !(CLOSE_TAG <= text[i..]) {
      assert TagLen(text[i..]).None?;
      CloseTagIsTag(text[i..]);
    }
  }

  lemma CloseTagIsTag(s: string)
    ensures CLOSE_TAG <= s ==> TagLen(s).Some?
  {
    SlashNameInLanguage(TAG_NAME);
    if CLOSE_TAG <= s {
      SlashPrefix(TAG_NAME, s);
      TagLenDecidesLanguage(s, |TAG_NAME| + 2);
    }
  }

  lemma SlashPrefix(name: string, s: string)
    requires "</" + name + ">" <= s
    ensures |name| + 2 <= |s| && s[0] == '<' && s[..|name| + 2][1..] == "/" + name
  {
    var t := "</" + name + ">";
    assert s[..|t|] == t;
    assert s[..|name| + 2] == t[..|name| + 2];
  }

  lemma SlashNameInLanguage(name: string)
    ensures InTailLanguage("/" + name, name)
  {
    var t := "/" + name;
    assert t[1..] == name;
    assert TailParts(t, name, 0, true, 0);
  }

  // The language of the pattern, stated without a matcher: the layout says how long each part is.

  datatype Layout = Layout(lead: nat, gap: nat, attrs: nat, firstBreak: bool, text: nat, lastBreak: bool) {
    function First(): nat { if firstBreak then 1 else 0 }
    function Last(): nat { if lastBreak then 1 else 0 }
  }

  /** A newline or not, the text, a newline or not, the closing tag. */
  predicate TextLaidOut(close: string, s: string, l: Layout) {
    && l.First() + l.text + l.Last() <= |s|
    && (l.firstBreak ==> s[0] == '\n')
    && (l.lastBreak ==> s[l.First() + l.text] == '\n')
    && ClosesAt(close, s[l.First() + l.text + l.Last()..])
  }

  /** Spaces, attributes without a bracket, the bracket, and the text. */
  predicate RestLaidOut(close: string, r: string, l: Layout) {
    && 0 < l.gap && l.gap + l.attrs < |r|
    && AllRegexSpace(r[..l.gap])
    && All(NotClosing, r[l.gap..l.gap + l.attrs])
    && r[l.gap + l.attrs] == '>'
    && TextLaidOut(close, r[l.gap + l.attrs + 1..], l)
  }

  /** Spaces, the opening tag, and the rest. */
  predicate LaidOut(open: string, close: string, c: string, l: Layout) {
    && l.lead <= |c| && AllRegexSpace(c[..l.lead])
    && open <= c[l.lead..]
    && RestLaidOut(close, c[l.lead..][|open|..], l)
  }

  ghost predicate IsElement(c: string) {
    exists l: Layout :: LaidOut(OPEN_TAG, CLOSE_TAG, c, l)
  }

  /** The parts the two groups of the pattern capture in a layout. */
  function Captured(open: string, c: string, l: Layout): ElementMatch
    requires l.lead + |open| + l.gap + l.attrs + 1 + l.First() + l.text <= |c|
  {
    var r := c[l.lead..][|open|..];
    ElementMatch(r[l.gap..l.gap + l.attrs], r[l.gap + l.attrs + 1..][l.First()..][..l.text])
  }

  lemma TextFound(close: string, s: string, n: nat, lastBreak: bool)
    requires n + (if lastBreak then 1 else 0) <= |s|
    requires lastBreak ==> s[n] == '\n'
    requires ClosesAt(close, s[n + (if lastBreak then 1 else 0)..])
    ensures ShortestText(close, s, 0).Some? && ShortestText(close, s, 0).value <= n
  {
    if lastBreak {
      assert s[n..][1..] == s[n + 1..];
    }
    assert TextEndsAt(close, s[n..]);
  }

  /** The parser can take a newline before the text. */
  predicate TakesBreak(close: string, s: string) {
    s != "" && s[0] == '\n' && ShortestText(close, s[1..], 0).Some?
  }

  /** The parser takes the newline of the opening tag if it can, and then the shortest text. */
  lemma MatchTextComplete(close: string, s: string, l: Layout)
    requires TextLaidOut(close, s, l)
    ensures MatchText(close, s).Some?
    ensures l.firstBreak ==> TakesBreak(close, s)
    ensures l.firstBreak == TakesBreak(close, s) ==> |MatchText(close, s).value| <= l.text
  {
    if l.firstBreak {
      assert s[1..][l.text + l.Last()..] == s[1 + l.text + l.Last()..];
      TextFound(close, s[1..], l.text, l.lastBreak);
    } else {
      TextFound(close, s, l.text, l.lastBreak);
    }
  }

  lemma TextEnd(close: string, s: string, n: nat) returns (lastBreak: bool)
    requires n <= |s| && TextEndsAt(close, s[n..])
    ensures n + (if lastBreak then 1 else 0) <= |s|
    ensures lastBreak ==> s[n] == '\n'
    ensures ClosesAt(close, s[n + (if lastBreak then 1 else 0)..])
  {
    lastBreak := s[n..] != "" && s[n] == '\n' && ClosesAt(close, s[n..][1..]);
    if lastBreak {
      assert s[n..][1..] == s[n + 1..];
    }
  }

  /** What the text group took, told by which newlines the pattern took. */
  lemma MatchTextSound(close: string, s: string, l0: Layout) returns (l: Layout)
    requires MatchText(close, s).Some?
    ensures l == l0.(firstBreak := l.firstBreak, text := l.text, lastBreak := l.lastBreak)
    ensures TextLaidOut(close, s, l) && MatchText(close, s).value == s[l.First()..][..l.text]
    ensures l.firstBreak == TakesBreak(close, s)
  {
    if s != "" && s[0] == '\n' && ShortestText(close, s[1..], 0).Some? {
      var n := ShortestText(close, s[1..], 0).value;
      var lastBreak := TextEnd(close, s[1..], n);
      l := l0.(firstBreak := true, text := n, lastBreak := lastBreak);
      assert s[1..][n + l.Last()..] == s[1 + n + l.Last()..];
    } else {
      var n := ShortestText(close, s, 0).value;
      var lastBreak := TextEnd(close, s, n);
      l := l0.(firstBreak := false, text := n, lastBreak := lastBreak);
      assert s[0..] == s;
    }
  }

  lemma {:induction false} RunAtLeast(p: char -> bool, s: string, n: nat)
    requires n <= |s| && All(p, s[..n])
    ensures Run(p, s) >= n
  {
    if n > 0 {
      assert s[..n][0] == s[0];
      assert s[1..][..n - 1] == s[..n][1..];
      RunAtLeast(p, s[1..], n - 1);
    }
  }

  lemma {:induction false} RunAtMost(p: char -> bool, s: string, k: nat)
    requires k < |s| && !p(s[k])
    ensures Run(p, s) <= k
  {
    if k > 0 && p(s[0]) {
      RunAtMost(p, s[1..], k - 1);
    }
  }

  /** However the attributes begin, they end at the first bracket. */
  lemma AttrsEnd(r: string, gap: nat, attrs: nat)
    requires gap > 0 && gap + attrs < |r| && r[gap + attrs] == '>'
    requires AllRegexSpace(r[..gap]) && All(NotClosing, r[gap..gap + attrs])
    ensures AttrSpan(r).Some? && AttrSpan(r).value.end == gap + attrs
  {
    var w := Run(RegexSpace, r);
    RunAtLeast(RegexSpace, r, gap);
    RunAtMost(RegexSpace, r, gap + attrs);
    var n := gap + attrs - w;
    forall i | 0 <= i < n ensures NotClosing(r[w..][..n][i]) {
      assert r[w..][..n][i] == r[gap..gap + attrs][w - gap + i];
    }
    assert r[w..][n] == '>';
    RunAtLeast(NotClosing, r[w..], n);
    RunAtMost(NotClosing, r[w..], n);
  }

  lemma AttrsSpanSound(r: string)
    requires AttrSpan(r).Some?
    ensures var sp := AttrSpan(r).value;
            AllRegexSpace(r[..sp.from]) && All(NotClosing, r[sp.from..sp.end]) && r[sp.end] == '>'
  {
    var w := Run(RegexSpace, r);
    var a := Run(NotClosing, r[w..]);
    assert r[w..][..a] == r[w..w + a];
    assert r[w..][a] == r[w + a];
  }

  lemma RestComplete(close: string, r: string, l: Layout)
    requires RestLaidOut(close, r, l)
    ensures MatchRest(close, r).Some?
  {
    AttrsEnd(r, l.gap, l.attrs);
    MatchTextComplete(close, r[l.gap + l.attrs + 1..], l);
  }

  lemma LeadEnds(open: string, c: string, lead: nat)
    requires open != "" && !RegexSpace(open[0])
    requires lead <= |c| && AllRegexSpace(c[..lead]) && open <= c[lead..]
    ensures Run(RegexSpace, c) == lead
  {
    assert c[lead] == c[lead..][0] == open[0];
    RunAtLeast(RegexSpace, c, lead);
    RunAtMost(RegexSpace, c, lead);
  }

  lemma TaggedComplete(open: string, close: string, c: string, l: Layout)
    requires open != "" && !RegexSpace(open[0])
    requires LaidOut(open, close, c, l)
    ensures MatchTagged(open, close, c).Some?
  {
    LeadEnds(open, c, l.lead);
    RestComplete(close, c[l.lead..][|open|..], l);
  }

  lemma RestFrom(close: string, r: string, sp: Span, l: Layout)
    requires 0 < sp.from <= sp.end < |r| && r[sp.end] == '>'
    requires AllRegexSpace(r[..sp.from]) && All(NotClosing, r[sp.from..sp.end])
    requires l.gap == sp.from && l.gap + l.attrs == sp.end && TextLaidOut(close, r[sp.end + 1..], l)
    ensures RestLaidOut(close, r, l)
  {
  }

  /** The parts of the rest that the pattern takes, `tail` being what stands after the bracket. */
  predicate RestTaken(close: string, r: string, l: Layout, tail: string) {
    && l.gap == Run(RegexSpace, r) && l.gap + l.attrs < |r|
    && tail == r[l.gap + l.attrs + 1..]
    && l.firstBreak == TakesBreak(close, tail) && MatchText(close, tail).Some?
       && |MatchText(close, tail).value| == l.text
  }

  lemma TailSound(close: string, r: string, sp: Span, lead: nat) returns (l: Layout, tail: string)
    requires 0 < sp.from <= sp.end < |r| && sp.from == Run(RegexSpace, r)
    requires MatchText(close, r[sp.end + 1..]).Some?
    ensures l.lead == lead && l.gap == sp.from && l.gap + l.attrs == sp.end
    ensures RestTaken(close, r, l, tail) && TextLaidOut(close, tail, l)
    ensures MatchText(close, tail).value == tail[l.First()..][..l.text]
  {
    tail := r[sp.end + 1..];
    l := MatchTextSound(close, tail, Layout(lead, sp.from, sp.end - sp.from, false, 0, false));
  }

  lemma RestSound(close: string, r: string, lead: nat) returns (l: Layout, tail: string)
    requires MatchRest(close, r).Some?
    ensures l.lead == lead && RestLaidOut(close, r, l) && RestTaken(close, r, l, tail)
    ensures MatchRest(close, r).value == ElementMatch(r[l.gap..l.gap + l.attrs], tail[l.First()..][..l.text])
  {
    var sp := AttrSpan(r).value;
    AttrsSpanSound(r);
    l, tail := TailSound(close, r, sp, lead);
    RestFrom(close, r, sp, l);
  }

  lemma LaidOutFrom(open: string, close: string, c: string, l: Layout, s: string, r: string)
    requires l.lead <= |c| && AllRegexSpace(c[..l.lead]) && s == c[l.lead..] && open <= s && r == s[|open|..]
    requires RestLaidOut(close, r, l)
    ensures LaidOut(open, close, c, l)
  {
  }

  lemma CapturedIs(open: string, c: string, l: Layout, s: string, r: string, tail: string)
    requires l.lead <= |c| && s == c[l.lead..] && |open| <= |s| && r == s[|open|..]
    requires l.gap + l.attrs < |r| && tail == r[l.gap + l.attrs + 1..] && l.First() + l.text <= |tail|
    ensures l.lead + |open| + l.gap + l.attrs + 1 + l.First() + l.text <= |c|
    ensures Captured(open, c, l) == ElementMatch(r[l.gap..l.gap + l.attrs], tail[l.First()..][..l.text])
  {
  }

  lemma TaggedSound(open: string, close: string, c: string) returns (l: Layout, r: string, tail: string)
    requires MatchTagged(open, close, c).Some?
    ensures LaidOut(open, close, c, l) && r == c[l.lead..][|open|..] && RestTaken(close, r, l, tail)
    ensures MatchTagged(open, close, c).value == Captured(open, c, l)
  {
    var lead := Run(RegexSpace, c);
    var s := c[lead..];
    r := s[|open|..];
    l, tail := RestSound(close, r, lead);
    LaidOutFrom(open, close, c, l, s, r);
    CapturedIs(open, c, l, s, r, tail);
  }

  /** The choice of the pattern between two layouts: as many spaces and as short attributes as can be,
      the newline before the text if it can be had, and then the shortest text. */
  predicate Preferred(l: Layout, other: Layout) {
    && other.lead == l.lead && other.gap + other.attrs == l.gap + l.attrs && other.gap <= l.gap
    && (other.firstBreak ==> l.firstBreak)
    && (other.firstBreak == l.firstBreak ==> l.text <= other.text)
  }

  /** All layouts agree on where the attributes end, and none has more spaces. */
  lemma SameBracket(close: string, r: string, l: Layout, other: Layout)
    requires RestLaidOut(close, r, l) && RestLaidOut(close, r, other) && l.gap == Run(RegexSpace, r)
    ensures other.gap + other.attrs == l.gap + l.attrs && other.gap <= l.gap
  {
    AttrsEnd(r, l.gap, l.attrs);
    AttrsEnd(r, other.gap, other.attrs);
    RunAtLeast(RegexSpace, r, other.gap);
  }

  lemma RestPreferred(close: string, r: string, l: Layout, tail: string, other: Layout)
    requires RestLaidOut(close, r, l) && RestLaidOut(close, r, other) && other.lead == l.lead
    requires RestTaken(close, r, l, tail)
    ensures Preferred(l, other)
  {
    SameBracket(close, r, l, other);
    assert TextLaidOut(close, tail, other);
    MatchTextComplete(close, tail, other);
  }

  lemma TaggedPreferred(open: string, close: string, c: string, l: Layout, r: string, tail: string, other: Layout)
    requires open != "" && !RegexSpace(open[0])
    requires LaidOut(open, close, c, l) && r == c[l.lead..][|open|..] && RestTaken(close, r, l, tail)
    requires LaidOut(open, close, c, other)
    ensures Preferred(l, other)
  {
    LeadEnds(open, c, l.lead);
    LeadEnds(open, c, other.lead);
    RestPreferred(close, r, l, tail, other);
  }

  /** The parser finds an element exactly when the content is one, and captures the parts of the one
      layout the pattern chooses among all there are. */
  lemma MatchElementDecides(content: string)
    ensures MatchElement(content).Some? <==> IsElement(content)
    ensures MatchElement(content).Some? ==> exists l: Layout ::
              && LaidOut(OPEN_TAG, CLOSE_TAG, content, l)
              && MatchElement(content).value == Captured(OPEN_TAG, content, l)
              && forall other: Layout :: LaidOut(OPEN_TAG, CLOSE_TAG, content, other) ==> Preferred(l, other)
  {
    if MatchElement(content).Some? {
      var l, r, tail := TaggedSound(OPEN_TAG, CLOSE_TAG, content);
      forall other: Layout | LaidOut(OPEN_TAG, CLOSE_TAG, content, other) ensures Preferred(l, other) {
        TaggedPreferred(OPEN_TAG, CLOSE_TAG, content, l, r, tail, other);
      }
    }
    if IsElement(content) {
      var l: Layout :| LaidOut(OPEN_TAG, CLOSE_TAG, content, l);
      TaggedComplete(OPEN_TAG, CLOSE_TAG, content, l);
    }
  }

  // ---------- ParseEnvelope ----------

  datatype Envelope = Envelope(from: string, fromName: string, fromMode: string, text: string)

  datatype ParseResult = Parsed(env: Envelope) | NoElement | Unattributed

  function SetAttr(env: Envelope, m: AttrMatch): Envelope {
    if m.name == "from" then env.(from := UnescapeAttr(m.value))
    else if m.name == "from-name" then env.(fromName := UnescapeAttr(m.value))
    else if m.name == "from-mode" then env.(fromMode := UnescapeAttr(m.value))
    else env
  }

  function SetAttrs(env: Envelope, ms: seq<AttrMatch>): Envelope
    decreases |ms|
  {
    if ms == [] then env else SetAttrs(SetAttr(env, ms[0]), ms[1..])
  }

  function Parse(content: string): ParseResult {
    match MatchElement(content)
    case None => NoElement
    case Some(m) =>
      var env := SetAttrs(Envelope("", "", "", m.text), AttrMatches(m.attrs));
      if env.fromName == "" then Unattributed else Parsed(env)
  }

  method ParseEnvelope(content: string) returns (r: ParseResult)
    ensures r == Parse(content)
  {
    var m := MatchElement(content);
    if m.None? {
      return NoElement;
    }
    var env := Envelope("", "", "", m.value.text);
    var ms := AttrMatches(m.value.attrs);
    ghost var start := env;
    for i := 0 to |ms|
      invariant SetAttrs(env, ms[i..]) == SetAttrs(start, ms)
    {
      assert ms[i..][0] == ms[i] && ms[i..][1..] == ms[i + 1..];
      if ms[i].name == "from" {
        env := env.(from := UnescapeAttr(ms[i].value));
      } else if ms[i].name == "from-name" {
        env := env.(fromName := UnescapeAttr(ms[i].value));
      } else if ms[i].name == "from-mode" {
        env := env.(fromMode := UnescapeAttr(ms[i].value));
      }
    }
    if env.fromName == "" {
      return Unattributed;
    }
    return Parsed(env);
  }

  // ---------- NewFrame ----------

  datatype FrameOptions = FrameOptions(text: string, fromAddress: string, fromName: string, fromMode: string,
                                       priority: string)

  datatype Frame = Frame(msgV: int, msgId: string, kind: string, role: string, content: string, priority: string,
                         from: string)

  datatype FrameError = NoAddress | NoName | BadAddress(why: Verdict) | NameEmptyOnceCleaned

  datatype FrameResult = Built(frame: Frame) | Refused(error: FrameError)

  function ThreeAttrs(a: AttrMatch, b: AttrMatch, c: AttrMatch): string {
    a.Print() + (" " + (b.Print() + (" " + c.Print())))
  }

  function Attrs(from: string, name: string, mode: string): string {
    ThreeAttrs(
      AttrMatch("from", EscapeAttr(from)),
      AttrMatch("from-name", EscapeAttr(name)),
      AttrMatch("from-mode", EscapeAttr(mode)))
  }

  function OrDefault(s: string, default: string): string {
    if s == "" then default else s
  }

  function FrameOf(address: string, name: string, mode: string, priority: string, text: string, msgId: string): Frame {
    Frame(1, msgId, "user", "user", Element(Attrs(address, name, mode), text), priority, address)
  }

  function FrameFor(o: FrameOptions, msgId: string): FrameResult {
    if o.fromAddress == "" then Refused(NoAddress)
    else if o.fromName == "" then Refused(NoName)
    else if CheckField(o.fromAddress) != Accepted then Refused(BadAddress(CheckField(o.fromAddress)))
    else if Field(o.fromName) == "" then Refused(NameEmptyOnceCleaned)
    else Built(FrameOf(o.fromAddress, Field(o.fromName), Field(OrDefault(o.fromMode, "prompting")),
                       OrDefault(o.priority, "next"), Body(o.text), msgId))
  }

  /** The printer, reassigning its local options before it builds the value. */
  method NewFrame(options: FrameOptions, msgId: string) returns (r: FrameResult)
    ensures r == FrameFor(options, msgId)
  {
    var o := options;
    if o.fromAddress == "" {
      return Refused(NoAddress);
    }
    if o.fromName == "" {
      return Refused(NoName);
    }
    if o.fromMode == "" {
      o := o.(fromMode := "prompting");
    }
    if o.priority == "" {
      o := o.(priority := "next");
    }
    var why := CheckField(o.fromAddress);
    if why != Accepted {
      return Refused(BadAddress(why));
    }
    o := o.(fromName := Field(o.fromName), fromMode := Field(o.fromMode));
    if o.fromName == "" {
      return Refused(NameEmptyOnceCleaned);
    }
    o := o.(text := Body(o.text));
    return Built(FrameOf(o.fromAddress, o.fromName, o.fromMode, o.priority, o.text, msgId));
  }

  lemma ThreeAttrsMatch(a: AttrMatch, b: AttrMatch, c: AttrMatch)
    requires a.Printable() && b.Printable() && c.Printable()
    ensures AttrMatches(ThreeAttrs(a, b, c)) == [a, b, c]
  {
    AttrMatchesPrinted(c, "");
    assert c.Print() + "" == c.Print();
    AttrMatchesSpace(c.Print());
    AttrMatchesPrinted(b, " " + c.Print());
    AttrMatchesSpace(b.Print() + (" " + c.Print()));
    AttrMatchesPrinted(a, " " + (b.Print() + (" " + c.Print())));
  }

  lemma EscapedPrintable(name: string, value: string)
    requires name != "" && All(NameChar, name)
    ensures AttrMatch(name, EscapeAttr(value)).Printable()
  {
    EscapedIsSafe(value);
    forall i | 0 <= i < |EscapeAttr(value)| ensures NotQuote(EscapeAttr(value)[i]) {
      assert AttrSafe(EscapeAttr(value)[i]);
    }
  }

  lemma SetThree(env: Envelope, a: AttrMatch, b: AttrMatch, c: AttrMatch)
    ensures SetAttrs(env, [a, b, c]) == SetAttr(SetAttr(SetAttr(env, a), b), c)
  {
    assert [a, b, c][1..] == [b, c] && [b, c][1..] == [c];
    var env1 := SetAttr(env, a);
    assert SetAttrs(env, [a, b, c]) == SetAttrs(env1, [b, c]);
    assert SetAttrs(env1, [b, c]) == SetAttrs(SetAttr(env1, b), [c]);
  }

  lemma AttrsRoundTrip(from: string, name: string, mode: string, text: string)
    ensures SetAttrs(Envelope("", "", "", text), AttrMatches(Attrs(from, name, mode))) ==
            Envelope(from, name, mode, text)
  {
    EscapedPrintable("from", from);
    EscapedPrintable("from-name", name);
    EscapedPrintable("from-mode", mode);
    var a := AttrMatch("from", EscapeAttr(from));
    var b := AttrMatch("from-name", EscapeAttr(name));
    var c := AttrMatch("from-mode", EscapeAttr(mode));
    ThreeAttrsMatch(a, b, c);
    SetThree(Envelope("", "", "", text), a, b, c);
    UnescapeUndoesEscape(from);
    UnescapeUndoesEscape(name);
    UnescapeUndoesEscape(mode);
  }

  // The element as a whole.

  lemma RestSlices(attrs: string, body: string)
    ensures var r := " " + (attrs + (">" + body));
            r[1..] == attrs + (">" + body) && r[1..1 + |attrs|] == attrs && r[1 + |attrs| + 1..] == body
  {
  }

  lemma RestRoundTrip(close: string, attrs: string, body: string)
    requires attrs != "" && !RegexSpace(attrs[0]) && All(NotClosing, attrs)
    requires MatchText(close, body).Some?
    ensures MatchRest(close, " " + (attrs + (">" + body))) == Some(ElementMatch(attrs, MatchText(close, body).value))
  {
    var tail := attrs + (">" + body);
    RestSlices(attrs, body);
    assert tail[0] == attrs[0];
    RunIs(RegexSpace, " ", tail);
    RunIs(NotClosing, attrs, ">" + body);
  }

  lemma TaggedRoundTrip(open: string, close: string, attrs: string, text: string)
    requires open != "" && !RegexSpace(open[0])
    requires close != "" && forall i :: 0 <= i < |close| ==> close[i] != '\n'
    requires attrs != "" && !RegexSpace(attrs[0]) && All(NotClosing, attrs)
    requires Free(close, text)
    ensures MatchTagged(open, close, Tagged(open, close, attrs, text)) == Some(ElementMatch(attrs, text))
  {
    var body := "\n" + text + "\n" + close;
    TextRoundTrip(close, text);
    RestRoundTrip(close, attrs, body);
    var r := " " + (attrs + (">" + body));
    var content := open + r;
    assert content[0] == open[0];
    assert Run(RegexSpace, content) == 0 && content[0..] == content;
    assert content[|open|..] == r;
  }

  lemma ElementRoundTrip(attrs: string, text: string)
    requires attrs != "" && !RegexSpace(attrs[0]) && All(NotClosing, attrs)
    requires TagFree(text)
    ensures MatchElement(Element(attrs, text)) == Some(ElementMatch(attrs, text))
  {
    TagFreeIsFree(text);
    CloseTagOneLine();
    TaggedRoundTrip(OPEN_TAG, CLOSE_TAG, attrs, text);
  }

  lemma CloseTagOneLine()
    ensures CLOSE_TAG != "" && forall i :: 0 <= i < |CLOSE_TAG| ==> CLOSE_TAG[i] != '\n'
  {
  }

  lemma PrintedSafe(m: AttrMatch)
    requires All(NameChar, m.name) && All(AttrSafe, m.value)
    ensures All(NotClosing, m.Print())
  {
    forall i | 0 <= i < |m.Print()| ensures NotClosing(m.Print()[i]) {
      if i < |m.name| {
        assert NameChar(m.name[i]);
      } else if |m.name| + 2 <= i < |m.name| + 2 + |m.value| {
        assert AttrSafe(m.value[i - |m.name| - 2]);
      }
    }
  }

  lemma AllConcat(p: char -> bool, a: string, b: string)
    requires All(p, a) && All(p, b)
    ensures All(p, a + b)
  {
  }

  lemma AttrsSafe(from: string, name: string, mode: string)
    ensures var s := Attrs(from, name, mode); s != "" && !RegexSpace(s[0]) && All(NotClosing, s)
  {
    EscapedIsSafe(from);
    EscapedIsSafe(name);
    EscapedIsSafe(mode);
    var a := AttrMatch("from", EscapeAttr(from));
    var b := AttrMatch("from-name", EscapeAttr(name));
    var c := AttrMatch("from-mode", EscapeAttr(mode));
    PrintedSafe(a);
    PrintedSafe(b);
    PrintedSafe(c);
    AllConcat(NotClosing, " ", c.Print());
    AllConcat(NotClosing, b.Print(), " " + c.Print());
    AllConcat(NotClosing, " ", b.Print() + (" " + c.Print()));
    AllConcat(NotClosing, a.Print(), " " + (b.Print() + (" " + c.Print())));
    assert Attrs(from, name, mode)[0] == a.Print()[0] == a.name[0];
  }

  lemma ParseElement(from: string, name: string, mode: string, text: string)
    requires name != "" && TagFree(text)
    ensures Parse(Element(Attrs(from, name, mode), text)) == Parsed(Envelope(from, name, mode, text))
  {
    AttrsSafe(from, name, mode);
    ElementRoundTrip(Attrs(from, name, mode), text);
    AttrsRoundTrip(from, name, mode, text);
  }

  lemma BuiltContent(o: FrameOptions, msgId: string)
    requires FrameFor(o, msgId).Built?
    ensures Field(o.fromName) != ""
    ensures FrameFor(o, msgId).frame.content ==
            Element(Attrs(o.fromAddress, Field(o.fromName), Field(OrDefault(o.fromMode, "prompting"))), Body(o.text))
  {
  }

  /** The parser undoes the printer: every frame that is built reads back as exactly the address,
      the cleaned name, the cleaned mode and the neutralised text, newlines at its ends included. A
      refusal is down to the address or the name and never to the text or the mode. */
  lemma ParseUndoesNewFrame(o: FrameOptions, msgId: string)
    ensures match FrameFor(o, msgId)
            case Built(f) =>
              Parse(f.content) ==
                Parsed(Envelope(o.fromAddress, Field(o.fromName), Field(OrDefault(o.fromMode, "prompting")),
                                Body(o.text)))
            case Refused(_) => CheckField(o.fromAddress) != Accepted || Field(o.fromName) == ""
  {
    NewFrameAccepts(o, msgId);
    if FrameFor(o, msgId).Built? {
      BuiltContent(o, msgId);
      BodyTagFree(o.text);
      ParseElement(o.fromAddress, Field(o.fromName), Field(OrDefault(o.fromMode, "prompting")), Body(o.text));
    }
  }

  /** A frame is built exactly when the address passes the boundary check and the name survives cleaning. */
  lemma NewFrameAccepts(o: FrameOptions, msgId: string)
    ensures FrameFor(o, msgId).Built? <==> CheckField(o.fromAddress) == Accepted && Field(o.fromName) != ""
  {
    CheckFieldAccepts(o.fromAddress);
    FieldFixedPoints("");
  }
}
