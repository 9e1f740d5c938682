/**
 What a receiver reads of the sender, piece by piece: which fields of theirs are named, in which order,
 when their session is said to bypass its prompts, and which sentences stand around that at each level.
 */
module SenderRead {
  import opened Options
  import opened SafeText
  import opened Envelope
  import opened Pieces
  import opened TrustFrame

  /** A field with its introduction, as it is read; nothing when nothing of the field is left. */
  function Says(intro: string, field: string): string {
    if Field(field) == "" then "" else intro + Neutralise(Field(field))
  }

  /** Who wrote it: the name, or somebody. */
  function Called(person: string): string {
    if Field(person) == "" then ANOTHER else Neutralise(Field(person))
  }

  /** The mode declared is not the one in which a session asks before it acts. */
  predicate Bypasses(mode: string) {
    Field(mode) != "" && Field(mode) != "prompting"
  }

  function Warning(mode: string): string {
    if Bypasses(mode) then BYPASSED else ""
  }

  /** Nothing is left of a field exactly when it held no ordinary character. */
  lemma EmptyField(s: string)
    ensures Field(s) == "" <==> forall i :: 0 <= i < |s| ==> !Ordinary(s[i])
  {
    FieldShape(s);
    FieldKeepsOrdinary(s);
    NoneSelected(Ordinary, s);
    NoneSelected(Ordinary, WholeField(s));
    if Field(s) != "" {
      assert Field(s)[0] != ' ' && LineChar(Field(s)[0]);
      assert WholeField(s)[0] == Field(s)[0];
    }
  }

  lemma {:induction false} NoneSelected(p: char -> bool, s: string)
    ensures Select(p, s) == "" <==> forall i :: 0 <= i < |s| ==> !p(s[i])
  {
    if s != "" {
      NoneSelected(p, s[1..]);
      assert forall i :: 0 <= i < |s[1..]| ==> s[1..][i] == s[i + 1];
      if forall i :: 0 <= i < |s[1..]| ==> !p(s[1..][i]) {
        forall i | 0 < i < |s| ensures !p(s[i]) {
          assert !p(s[1..][i - 1]);
        }
      }
    }
  }

  // ---------- The description ----------

  lemma DescribeSplits(s: Sender)
    ensures Describe(s) == (if Field(s.person) == "" then ANOTHER else Field(s.person))
                           + (if Field(s.session) == "" then "" else IN_SESSION + Field(s.session))
                           + (if Field(s.workspace) == "" then "" else IN_WORKSPACE + Field(s.workspace))
                           + Warning(s.mode)
  {
  }

  lemma PartAcross(a: string, intro: string, field: string)
    requires NoBracket(intro) && intro != "" && Stops(intro + Field(field))
    ensures Neutralise(a + (if Field(field) == "" then "" else intro + Field(field)))
         == Neutralise(a) + Says(intro, field)
  {
    if Field(field) == "" {
      assert a + "" == a && Neutralise(a) + "" == Neutralise(a);
    } else {
      NeutraliseAcross(a, intro + Field(field));
      NeutralisePlain(intro, Field(field));
    }
  }

  lemma IntrosStop(b: string)
    ensures Stops(IN_SESSION + b) && Stops(IN_WORKSPACE + b) && Stops(BYPASSED)
  {
    assert (IN_SESSION + b)[0] == ',' && (IN_WORKSPACE + b)[0] == ',';
    assert BYPASSED[0] == ' ' && BYPASSED[1..][0] == '(';
  }

  lemma IntrosPlain()
    ensures NoBracket(IN_SESSION) && NoBracket(IN_WORKSPACE) && NoBracket(BYPASSED) && NoBracket(ANOTHER)
  {
    DescribeProse();
    BypassedProse();
    ProseNoBracket(IN_SESSION);
    ProseNoBracket(IN_WORKSPACE);
    ProseNoBracket(BYPASSED);
    ProseNoBracket(ANOTHER);
  }

  lemma WarningAcross(a: string, mode: string)
    ensures Neutralise(a + Warning(mode)) == Neutralise(a) + Warning(mode)
  {
    if Bypasses(mode) {
      IntrosStop("");
      IntrosPlain();
      NeutraliseAcross(a, BYPASSED);
      PlainIsFixed(BYPASSED);
    } else {
      assert a + "" == a && Neutralise(a) + "" == Neutralise(a);
    }
  }

  lemma CalledRead(person: string)
    ensures Neutralise(if Field(person) == "" then ANOTHER else Field(person)) == Called(person)
  {
    IntrosPlain();
    PlainIsFixed(ANOTHER);
  }

  /** What is read of the sender: the name, or that it is another member; the session and the workspace,
      each exactly when something is left of it; and the warning exactly when the mode is not the one that
      asks. Each field is neutralised on its own, so no two of them make a delimiter together, and nothing
      the sender calls itself removes the warning. */
  lemma SenderReads(s: Sender)
    ensures Neutralise(Describe(s)) ==
            Called(s.person) + Says(IN_SESSION, s.session) + Says(IN_WORKSPACE, s.workspace) + Warning(s.mode)
  {
    DescribeSplits(s);
    var who := if Field(s.person) == "" then ANOTHER else Field(s.person);
    var session := if Field(s.session) == "" then "" else IN_SESSION + Field(s.session);
    var workspace := if Field(s.workspace) == "" then "" else IN_WORKSPACE + Field(s.workspace);
    IntrosPlain();
    IntrosStop(Field(s.session));
    IntrosStop(Field(s.workspace));
    WarningAcross(who + session + workspace, s.mode);
    PartAcross(who + session, IN_WORKSPACE, s.workspace);
    PartAcross(who, IN_SESSION, s.session);
    CalledRead(s.person);
  }

  /** Declaring a mode adds the warning or nothing, whatever else the sender says. */
  lemma WarningIsAdded(s: Sender)
    ensures Neutralise(Describe(s)) == Neutralise(Describe(s.(mode := ""))) + Warning(s.mode)
    ensures Warning(s.mode) == BYPASSED <==> Field(s.mode) != "" && Field(s.mode) != "prompting"
    ensures Warning(s.mode) == "" <==> Field(s.mode) == "" || Field(s.mode) == "prompting"
  {
    SenderReads(s);
    SenderReads(s.(mode := ""));
    EmptyField("");
    var who := Called(s.person) + Says(IN_SESSION, s.session) + Says(IN_WORKSPACE, s.workspace);
    assert who + "" == who;
  }

  // ---------- The whole text at each level ----------

  /** The sender as it is read. */
  function Sent(s: Sender): seq<string> {
    [Called(s.person), Says(IN_SESSION, s.session), Says(IN_WORKSPACE, s.workspace), Warning(s.mode)]
  }

  function BlockPieces(kind: string, id: string, text: string): seq<string> {
    ["<", kind, " id=\"", id, "\">", "\n", Body(text), "\n", "</", kind, " id=\"", id, "\">"]
  }

  lemma SentFlat(s: Sender)
    ensures Flat(Sent(s)) == Neutralise(Describe(s))
  {
    SenderReads(s);
    FlatFour(Called(s.person), Says(IN_SESSION, s.session), Says(IN_WORKSPACE, s.workspace), Warning(s.mode));
  }

  lemma BlockFlat(kind: string, id: string, text: string)
    ensures Flat(BlockPieces(kind, id, text)) == Block(kind, id, Body(text))
  {
    MarkerFlat("<", kind, id);
    MarkerFlat("</", kind, id);
    var open, close := ["<", kind, " id=\"", id, "\">"], ["</", kind, " id=\"", id, "\">"];
    FlatAppend(["\n", Body(text), "\n"], close);
    FlatAppend(open, ["\n", Body(text), "\n"] + close);
    assert BlockPieces(kind, id, text) == open + (["\n", Body(text), "\n"] + close);
    FlatCons("\n", [Body(text), "\n"]);
    FlatTwo(Body(text), "\n");
    assert ["\n"] + [Body(text), "\n"] == ["\n", Body(text), "\n"];
    ConcatAssoc("\n", Body(text) + "\n", CloseMarker(kind, id));
    ConcatAssoc(Body(text), "\n", CloseMarker(kind, id));
  }

  lemma MarkerFlat(bracket: string, kind: string, id: string)
    ensures Flat([bracket, kind, " id=\"", id, "\">"]) == bracket + (kind + MarkerEnd(id))
  {
    FlatTwo(id, "\">");
    FlatCons(" id=\"", [id, "\">"]);
    FlatCons(kind, [" id=\"", id, "\">"]);
    FlatCons(bracket, [kind, " id=\"", id, "\">"]);
    assert [" id=\""] + [id, "\">"] == [" id=\"", id, "\">"];
    assert [kind] + [" id=\"", id, "\">"] == [kind, " id=\"", id, "\">"];
    assert [bracket] + [kind, " id=\"", id, "\">"] == [bracket, kind, " id=\"", id, "\">"];
    ConcatAssoc(" id=\"", id, "\">");
  }

  /** The sentences of a level around the sender and the identifier, and the empty line. */
  function HeadingPieces(before: seq<string>, s: Sender, after: seq<string>, id: string): seq<string> {
    before + Sent(s) + after + [RULE_START, RULE_MARKER, id, RULE_END, "\n"]
  }

  lemma PiecesFlat(before: string, sent: seq<string>, mid: seq<string>, id: string, end: string)
    ensures Flat([before] + (sent + (mid + [id, end, "\n"]))) ==
            before + (Flat(sent) + (Flat(mid) + (id + (end + "\n"))))
  {
    FlatTwo(end, "\n");
    FlatCons(id, [end, "\n"]);
    assert [id] + [end, "\n"] == [id, end, "\n"];
    FlatAppend(mid, [id, end, "\n"]);
    FlatAppend(sent, mid + [id, end, "\n"]);
    FlatCons(before, sent + (mid + [id, end, "\n"]));
  }

  lemma HeadingGlue(w: Wording, who: string, id: string)
    ensures Heading(w, who, id) + "\n" == w.before + (who + (w.after + (id + (w.end + "\n"))))
  {
    ConcatAssoc(id, w.end, "\n");
    ConcatAssoc(w.after, id + w.end, "\n");
    ConcatAssoc(who, w.after + (id + w.end), "\n");
    ConcatAssoc(w.before, who + (w.after + (id + w.end)), "\n");
  }

  lemma PiecesSplit(before: seq<string>, sent: seq<string>, after: seq<string>, a: string, b: string, c: string,
                    d: string, e: string)
    ensures before + sent + after + [a, b, c, d, e] == before + (sent + ((after + [a, b]) + [c, d, e]))
  {
  }

  lemma HeadingFlat(w: Wording, before: string, s: Sender, after: seq<string>, id: string)
    requires w.before == before && w.end == RULE_END
    requires w.after == Flat(after + [RULE_START, RULE_MARKER])
    ensures Flat(HeadingPieces([before], s, after, id)) == HeadingRead(w, s, id)
  {
    SentFlat(s);
    PiecesSplit([before], Sent(s), after, RULE_START, RULE_MARKER, id, RULE_END, "\n");
    PiecesFlat(before, Sent(s), after + [RULE_START, RULE_MARKER], id, RULE_END);
    HeadingGlue(w, Neutralise(Describe(s)), id);
  }

  lemma SourceAfter()
    ensures WordingOf(Source).after == Flat([SOURCE_WHO, SOURCE_DATA, SOURCE_ACTION] + [RULE_START, RULE_MARKER])
  {
    FlatTwo(RULE_START, RULE_MARKER);
    FlatCons(SOURCE_ACTION, [RULE_START, RULE_MARKER]);
    FlatCons(SOURCE_DATA, [SOURCE_ACTION] + [RULE_START, RULE_MARKER]);
    FlatCons(SOURCE_WHO, [SOURCE_DATA] + ([SOURCE_ACTION] + [RULE_START, RULE_MARKER]));
    assert [SOURCE_WHO, SOURCE_DATA, SOURCE_ACTION] + [RULE_START, RULE_MARKER]
        == [SOURCE_WHO] + ([SOURCE_DATA] + ([SOURCE_ACTION] + [RULE_START, RULE_MARKER]));
  }

  lemma OtherAfter()
    ensures WordingOf(Collaborator).after ==
            Flat([OTHER_WHO, OTHER_SESSIONS, OTHER_REQUEST, OTHER_CARRY, OTHER_NEVER] + [RULE_START, RULE_MARKER])
  {
    var rule := [RULE_START, RULE_MARKER];
    FlatTwo(RULE_START, RULE_MARKER);
    FlatCons(OTHER_NEVER, rule);
    FlatCons(OTHER_CARRY, [OTHER_NEVER] + rule);
    FlatCons(OTHER_REQUEST, [OTHER_CARRY] + ([OTHER_NEVER] + rule));
    FlatCons(OTHER_SESSIONS, [OTHER_REQUEST] + ([OTHER_CARRY] + ([OTHER_NEVER] + rule)));
    FlatCons(OTHER_WHO, [OTHER_SESSIONS] + ([OTHER_REQUEST] + ([OTHER_CARRY] + ([OTHER_NEVER] + rule))));
    assert [OTHER_WHO, OTHER_SESSIONS, OTHER_REQUEST, OTHER_CARRY, OTHER_NEVER] + rule
        == [OTHER_WHO] + ([OTHER_SESSIONS] + ([OTHER_REQUEST] + ([OTHER_CARRY] + ([OTHER_NEVER] + rule))));
  }

  lemma ReadFlat(w: Wording, before: string, s: Sender, after: seq<string>, text: string, id: string)
    requires Sound(w) && IsBlockId(id)
    requires w.before == before && w.end == RULE_END && w.after == Flat(after + [RULE_START, RULE_MARKER])
    ensures Body(FramedAs(w, s, text, id)) ==
            Flat(HeadingPieces([before], s, after, id) + BlockPieces(w.kind, id, text))
  {
    FramedRead(w, s, text, id);
    HeadingFlat(w, before, s, after, id);
    BlockFlat(w.kind, id, text);
    FlatAppend(HeadingPieces([before], s, after, id), BlockPieces(w.kind, id, text));
  }

  /** The sentences before and after the sender at each level below peer. */
  function Opening(level: Level): string
    requires !level.Peer?
  {
    if level.Source? then SOURCE_BEFORE else OTHER_BEFORE
  }

  function Advice(level: Level): seq<string>
    requires !level.Peer?
  {
    if level.Source? then [SOURCE_WHO, SOURCE_DATA, SOURCE_ACTION]
    else [OTHER_WHO, OTHER_SESSIONS, OTHER_REQUEST, OTHER_CARRY, OTHER_NEVER]
  }

  function Kind(level: Level): string
    requires !level.Peer?
  {
    if level.Source? then "content" else "message"
  }

  /** All of a text below peer level: who sent it; that it is data and not to be followed, at source level,
      or a request to evaluate that can approve nothing; the rule of the block; and the block. */
  function AllPieces(level: Level, s: Sender, text: string, id: string): seq<string>
    requires !level.Peer?
  {
    HeadingPieces([Opening(level)], s, Advice(level), id) + BlockPieces(Kind(level), id, text)
  }

  lemma WordingIs(level: Level, w: Wording)
    requires !level.Peer? && w == WordingOf(level)
    ensures Sound(w) && w.before == Opening(level) && w.end == RULE_END && w.kind == Kind(level)
    ensures w.after == Flat(Advice(level) + [RULE_START, RULE_MARKER])
  {
    LevelWording(level);
    if level.Source? {
      SourceAfter();
    } else {
      OtherAfter();
    }
  }

  /** What a receiver reads below peer level, through framing, printing and parsing, to the last character. */
  lemma ReadInFull(level: Level, s: Sender, text: string, id: string, o: FrameOptions, msgId: string)
    requires !level.Peer? && IsBlockId(id)
    requires o.text == Framed(level, s, text, id) && FrameFor(o, msgId).Built?
    ensures Parse(FrameFor(o, msgId).frame.content).Parsed?
    ensures Parse(FrameFor(o, msgId).frame.content).env.text == Flat(AllPieces(level, s, text, id))
  {
    ParseUndoesNewFrame(o, msgId);
    var w := WordingOf(level);
    WordingIs(level, w);
    ReadFlat(w, Opening(level), s, Advice(level), text, id);
  }
}
