/** Keeping a chat history one the model will accept: calls answered, roles alternating. */
module ChatHistory {
  import opened Wrappers

  type Run = string

  datatype Call = Call(tool: string, args: string)

  datatype Block =
    | Text(text: string)
    | ToolUse(id: string, call: Call)
    | ToolResult(id: string, failed: bool, denied: bool)
    | Other

  datatype Role = User | Assistant
  datatype Content = Plain(text: string) | Blocks(blocks: seq<Block>) | Missing
  datatype Message = Message(role: Role, content: Content)

  datatype Refusal = SessionBusy | NotANote | ConfirmationPending

  /** The note reader and the marking of operator text, both defined elsewhere. */
  datatype Notation = Notation(parse: string -> Option<Run>, neutralise: string -> string)

  // ---- Calls and their answers ----

  predicate HasCall(blocks: seq<Block>) {
    exists b :: b in blocks && b.ToolUse?
  }

  function Calls(m: Message): set<string> {
    if m.role == Assistant && m.content.Blocks? then set b | b in m.content.blocks && b.ToolUse? :: b.id else {}
  }

  function ResultIds(blocks: seq<Block>): set<string> {
    set b | b in blocks && b.ToolResult? :: b.id
  }

  function Results(m: Message): set<string> {
    if m.role == User && m.content.Blocks? then ResultIds(m.content.blocks) else {}
  }

  /** Every call of message `i` has its result in the message right after it. */
  ghost predicate Answered(ms: seq<Message>, i: nat)
    requires i < |ms|
  {
    Calls(ms[i]) <= if i + 1 < |ms| then Results(ms[i + 1]) else {}
  }

  /** Only an assistant's calls need results, and only a user's message right after them holds those. */
  lemma AnsweredIff(ms: seq<Message>, i: nat)
    requires i < |ms|
    ensures Answered(ms, i) <==>
      (ms[i].role == Assistant && ms[i].content.Blocks? ==>
         forall b :: b in ms[i].content.blocks && b.ToolUse? ==>
           && i + 1 < |ms| && ms[i + 1].role == User && ms[i + 1].content.Blocks?
           && exists d :: d in ms[i + 1].content.blocks && d.ToolResult? && d.id == b.id)
  {
    if ms[i].role == Assistant && ms[i].content.Blocks? {
      forall b | b in ms[i].content.blocks && b.ToolUse?
        ensures b.id in Calls(ms[i])
      {
      }
    }
  }

  ghost predicate AllAnswered(ms: seq<Message>) {
    forall i: nat :: i < |ms| ==> Answered(ms, i)
  }

  ghost predicate AnsweredExceptLast(ms: seq<Message>) {
    forall i: nat :: i + 1 < |ms| ==> Answered(ms, i)
  }

  /** The last message makes calls nothing has answered. */
  predicate CallsOpen(ms: seq<Message>) {
    ms != [] && var last := ms[|ms| - 1]; last.role == Assistant && last.content.Blocks? && HasCall(last.content.blocks)
  }

  lemma OpenIff(ms: seq<Message>)
    requires ms != []
    ensures CallsOpen(ms) <==> Calls(ms[|ms| - 1]) != {}
    ensures AllAnswered(ms) <==> AnsweredExceptLast(ms) && !CallsOpen(ms)
  {
    var last := ms[|ms| - 1];
    if CallsOpen(ms) {
      var b :| b in last.content.blocks && b.ToolUse?;
      assert b.id in Calls(last);
    }
    if Calls(last) != {} {
      var id :| id in Calls(last);
    }
    if AllAnswered(ms) {
      assert Answered(ms, |ms| - 1);
    }
  }

  // ---- The notes the server recorded ----

  predicate IsNote(notation: Notation, notes: map<Run, string>, text: string) {
    var run := notation.parse(text);
    run.Some? && run.value in notes && notes[run.value] == text
  }

  predicate IsNoteMessage(notation: Notation, notes: map<Run, string>, m: Message) {
    && m.role == User && m.content.Blocks? && m.content.blocks != []
    && forall b :: b in m.content.blocks ==> b.Text? && IsNote(notation, notes, b.text)
  }

  // ---- What each operation leaves ----

  function Healed(ms: seq<Message>): seq<Message> {
    if CallsOpen(ms) then ms[..|ms| - 1] else ms
  }

  function WithBlock(ms: seq<Message>, b: Block): seq<Message>
    requires ms != [] && ms[|ms| - 1].content.Blocks?
  {
    var last := ms[|ms| - 1];
    ms[|ms| - 1 := Message(last.role, Blocks(last.content.blocks + [b]))]
  }

  function WithNote(ms: seq<Message>, note: string, notation: Notation): seq<Message> {
    if ms != [] && ms[|ms| - 1].role == User && ms[|ms| - 1].content.Plain? then
      ms[|ms| - 1 := Message(User, Blocks([Text(notation.neutralise(ms[|ms| - 1].content.text)), Text(note)]))]
    else if ms != [] && ms[|ms| - 1].role == User && ms[|ms| - 1].content.Blocks? then
      WithBlock(ms, Text(note))
    else
      ms + [Message(User, Blocks([Text(note)]))]
  }

  function WithQuestion(ms: seq<Message>, notes: map<Run, string>, text: string, notation: Notation): seq<Message> {
    if ms != [] && IsNoteMessage(notation, notes, ms[|ms| - 1]) then
      WithBlock(ms, Text(notation.neutralise(text)))
    else
      ms + [Message(User, Plain(notation.neutralise(text)))]
  }

  class Session {
    const notation: Notation
    var messages: seq<Message>
    var notes: map<Run, string>
    var pending: bool
    var turnActive: bool
    var queue: seq<Call>
    var staged: seq<Block>

    constructor (notation: Notation)
      ensures this.notation == notation && messages == [] && notes == map[]
      ensures !pending && !turnActive && queue == [] && staged == []
    {
      this.notation := notation;
      messages, notes, pending, turnActive, queue, staged := [], map[], false, false, [], [];
    }

    method HealSession()
      modifies this`messages, this`queue, this`staged
      ensures messages == Healed(old(messages)) && queue == [] && staged == []
    {
      queue, staged := [], [];
      if messages == [] {
        return;
      }
      var last := messages[|messages| - 1];
      if last.role != Assistant || !last.content.Blocks? {
        return;
      }
      if HasCall(last.content.blocks) {
        messages := messages[..|messages| - 1];
      }
    }

    method AppendRunNote(note: string) returns (refused: Option<Refusal>)
      modifies this`messages, this`notes
      ensures refused ==
        if turnActive || (old(messages) != [] && (pending || CallsOpen(old(messages)))) then Some(SessionBusy)
        else if notation.parse(note).None? then Some(NotANote)
        else None
      ensures refused.Some? ==> messages == old(messages) && notes == old(notes)
      ensures refused.None? ==>
        messages == WithNote(old(messages), note, notation) &&
        notes == old(notes)[notation.parse(note).value := note]
    {
      if turnActive {
        return Some(SessionBusy);
      }
      if messages != [] {
        if pending {
          return Some(SessionBusy);
        }
        var last := messages[|messages| - 1];
        if last.role != User && last.content.Blocks? && HasCall(last.content.blocks) {
          return Some(SessionBusy);
        }
      }
      var run := notation.parse(note);
      if run.None? {
        return Some(NotANote);
      }
      if messages != [] && messages[|messages| - 1].role == User && messages[|messages| - 1].content.Plain? {
        var typed := notation.neutralise(messages[|messages| - 1].content.text);
        messages := messages[|messages| - 1 := Message(User, Blocks([Text(typed), Text(note)]))];
      } else if messages != [] && messages[|messages| - 1].role == User && messages[|messages| - 1].content.Blocks? {
        var blocks := messages[|messages| - 1].content.blocks;
        messages := messages[|messages| - 1 := Message(User, Blocks(blocks + [Text(note)]))];
      } else {
        messages := messages + [Message(User, Blocks([Text(note)]))];
      }
      notes := notes[run.value := note];
      return None;
    }

    method AppendUserText(text: string)
      modifies this`messages
      ensures messages == WithQuestion(old(messages), notes, text, notation)
    {
      var typed := notation.neutralise(text);
      if messages != [] && IsNoteMessage(notation, notes, messages[|messages| - 1]) {
        var last := messages[|messages| - 1];
        messages := messages[|messages| - 1 := Message(last.role, Blocks(last.content.blocks + [Text(typed)]))];
        return;
      }
      messages := messages + [Message(User, Plain(typed))];
    }

    /** A turn up to its first call to the model. */
    method RunTurn(text: string) returns (refused: Option<Refusal>)
      modifies this`messages, this`queue, this`staged, this`turnActive
      ensures refused == if pending then Some(ConfirmationPending) else None
      ensures pending ==> messages == old(messages) && turnActive == old(turnActive)
      ensures !pending ==>
        && messages == WithQuestion(Healed(old(messages)), notes, text, notation)
        && turnActive && queue == [] && staged == []
    {
      if pending {
        return Some(ConfirmationPending);
      }
      turnActive := true;
      HealSession();
      AppendUserText(text);
      return None;
    }
  }

  // ---- Nothing that was said is lost ----

  /**
   A note leaves every earlier message alone. It follows the last one's words, which are kept and marked,
   or its blocks, when the user spoke last, and is a message of its own otherwise.
   */
  lemma NotePlaced(ms: seq<Message>, note: string, notation: Notation)
    ensures
      var more, n := WithNote(ms, note, notation), |ms|;
      if ms != [] && ms[n - 1].role == User && ms[n - 1].content != Missing then
        && |more| == n && more[..n - 1] == ms[..n - 1] && more[n - 1].role == User && more[n - 1].content.Blocks?
        && more[n - 1].content.blocks ==
           (match ms[n - 1].content
            case Plain(text) => [Text(notation.neutralise(text))]
            case Blocks(blocks) => blocks
            case Missing => []) + [Text(note)]
      else
        more == ms + [Message(User, Blocks([Text(note)]))]
  {
  }

  /**
   A question leaves every earlier message alone, and joins the last one exactly when that is a user
   message of recorded notes and nothing else. Its text is marked.
   */
  lemma QuestionPlaced(ms: seq<Message>, notes: map<Run, string>, text: string, notation: Notation)
    ensures
      var more, n := WithQuestion(ms, notes, text, notation), |ms|;
      if ms != [] && ms[n - 1].role == User && ms[n - 1].content.Blocks? && ms[n - 1].content.blocks != []
         && forall b :: b in ms[n - 1].content.blocks ==>
              b.Text? && exists run :: run in notes && notation.parse(b.text) == Some(run) && notes[run] == b.text
      then
        && |more| == n && more[..n - 1] == ms[..n - 1] && more[n - 1].role == User && more[n - 1].content.Blocks?
        && more[n - 1].content.blocks == ms[n - 1].content.blocks + [Text(notation.neutralise(text))]
      else
        more == ms + [Message(User, Plain(notation.neutralise(text)))]
  {
    if ms != [] && ms[|ms| - 1].role == User && ms[|ms| - 1].content.Blocks? {
      forall b | b in ms[|ms| - 1].content.blocks && b.Text?
        ensures IsNote(notation, notes, b.text) <==>
          exists run :: run in notes && notation.parse(b.text) == Some(run) && notes[run] == b.text
      {
      }
    }
  }

  // ---- Calls stay answered ----

  /** Healing makes a history whole exactly when only its last message could be at fault. */
  lemma HealAnswersIff(ms: seq<Message>)
    ensures AllAnswered(Healed(ms)) <==> AnsweredExceptLast(ms)
  {
    if ms != [] {
      OpenIff(ms);
      if CallsOpen(ms) {
        var n: nat := |ms| - 1;
        var kept := ms[..n];
        forall i: nat | i + 1 < n
          ensures Answered(kept, i) <==> Answered(ms, i)
        {
        }
        if AnsweredExceptLast(ms) && n > 0 {
          assert Answered(ms, n - 1);
          assert Calls(kept[n - 1]) == {};
        }
        if AllAnswered(kept) && n > 0 {
          assert Answered(kept, n - 1);
        }
        forall i: nat | AllAnswered(kept) && i + 1 < |ms|
          ensures Answered(ms, i)
        {
          assert Answered(kept, i);
        }
      }
    }
  }

  /** Healing drops nothing from a whole history, and at most the last message from any. */
  lemma HealDropsOnlyOpenCalls(ms: seq<Message>)
    ensures AllAnswered(ms) ==> Healed(ms) == ms
    ensures Healed(ms) <= ms && |ms| <= |Healed(ms)| + 1
  {
    if ms != [] {
      OpenIff(ms);
    }
  }

  /** Adding to the last message, or one message after it, where calls and results are untouched. */
  lemma ExtendKeepsAnswers(ms: seq<Message>, more: seq<Message>)
    requires more != [] && |ms| <= |more| <= |ms| + 1
    requires forall i :: 0 <= i < |ms| ==> Calls(more[i]) == Calls(ms[i]) && Results(more[i]) == Results(ms[i])
    requires |more| == |ms| + 1 ==> Calls(more[|ms|]) == {} && Results(more[|ms|]) == {}
    ensures AnsweredExceptLast(ms) && !CallsOpen(ms) ==> AllAnswered(more)
    ensures |more| == |ms| + 1 && CallsOpen(ms) ==> !AnsweredExceptLast(more)
  {
    if AnsweredExceptLast(ms) && !CallsOpen(ms) {
      forall i: nat | i < |more|
        ensures Answered(more, i)
      {
        if i < |ms| {
          OpenIff(ms);
          assert Answered(ms, i);
        }
      }
    }
    if |more| == |ms| + 1 && CallsOpen(ms) {
      OpenIff(ms);
      assert !Answered(more, |ms| - 1);
    }
  }

  /** A note comes between a call and its result exactly when the guard would have refused it. */
  lemma NoteKeepsAnswersIff(ms: seq<Message>, note: string, notation: Notation)
    requires AnsweredExceptLast(ms)
    ensures AnsweredExceptLast(WithNote(ms, note, notation)) <==> !CallsOpen(ms)
    ensures !CallsOpen(ms) ==> AllAnswered(WithNote(ms, note, notation))
  {
    ExtendKeepsAnswers(ms, WithNote(ms, note, notation));
  }

  /** A question on its own would do so too: it needs the healing before it. */
  lemma QuestionKeepsAnswersIff(ms: seq<Message>, notes: map<Run, string>, text: string, notation: Notation)
    requires AnsweredExceptLast(ms)
    ensures AnsweredExceptLast(WithQuestion(ms, notes, text, notation)) <==> !CallsOpen(ms)
    ensures !CallsOpen(ms) ==> AllAnswered(WithQuestion(ms, notes, text, notation))
  {
    ExtendKeepsAnswers(ms, WithQuestion(ms, notes, text, notation));
  }

  /** Whatever an abort left behind, the model is called on a history with every call answered. */
  lemma TurnStartsWhole(ms: seq<Message>, notes: map<Run, string>, text: string, notation: Notation)
    requires AnsweredExceptLast(ms)
    ensures AllAnswered(WithQuestion(Healed(ms), notes, text, notation))
  {
    HealAnswersIff(ms);
    if Healed(ms) != [] {
      OpenIff(Healed(ms));
    }
    QuestionKeepsAnswersIff(Healed(ms), notes, text, notation);
  }

  // ---- Whole conversations ----

  /** The loop driving a turn commits assistant messages, and results only right after the calls. */
  datatype Event = Noted(note: string) | Asked(text: string) | Drove(more: seq<Message>)

  datatype History = History(messages: seq<Message>, notes: map<Run, string>)

  ghost predicate Continues(ms: seq<Message>, more: seq<Message>) {
    AnsweredExceptLast((if ms == [] then [] else [ms[|ms| - 1]]) + more)
  }

  function After(h: History, e: Event, notation: Notation): History {
    match e
    case Noted(note) =>
      if CallsOpen(h.messages) || notation.parse(note).None? then h
      else History(WithNote(h.messages, note, notation), h.notes[notation.parse(note).value := note])
    case Asked(text) => History(WithQuestion(Healed(h.messages), h.notes, text, notation), h.notes)
    case Drove(more) => History(h.messages + more, h.notes)
  }

  function Conversation(events: seq<Event>, notation: Notation): History {
    if events == [] then History([], map[])
    else
      var n := |events| - 1;
      After(Conversation(events[..n], notation), events[n], notation)
  }

  ghost predicate Driven(events: seq<Event>, notation: Notation) {
    forall n: nat :: n < |events| && events[n].Drove? ==>
      Continues(Conversation(events[..n], notation).messages, events[n].more)
  }

  lemma DriveKeepsAnswers(ms: seq<Message>, more: seq<Message>)
    requires AnsweredExceptLast(ms) && Continues(ms, more)
    ensures AnsweredExceptLast(ms + more)
  {
    if ms != [] {
      var n: nat := |ms| - 1;
      var joint := [ms[n]] + more;
      forall i: nat | i + 1 < |ms + more|
        ensures Answered(ms + more, i)
      {
        if i < n {
          assert Answered(ms, i);
        } else {
          assert Answered(joint, i - n);
          assert (ms + more)[i] == joint[i - n] && (ms + more)[i + 1] == joint[i - n + 1];
        }
      }
    } else {
      assert [] + more == more && ms + more == more;
    }
  }

  /** In every conversation, aborted anywhere and with notes arriving anywhere, only the last message has open calls. */
  lemma {:induction false} ConversationsStayWhole(events: seq<Event>, notation: Notation)
    requires Driven(events, notation)
    ensures AnsweredExceptLast(Conversation(events, notation).messages)
    ensures events != [] && events[|events| - 1].Asked? ==> AllAnswered(Conversation(events, notation).messages)
  {
    if events != [] {
      var n: nat := |events| - 1;
      var h := Conversation(events[..n], notation);
      DrivenPrefix(events, notation, n);
      ConversationsStayWhole(events[..n], notation);
      EventKeepsWhole(h, events[n], notation);
    }
  }

  lemma {:induction false} DrivenPrefix(events: seq<Event>, notation: Notation, n: nat)
    requires Driven(events, notation) && n < |events|
    ensures Driven(events[..n], notation)
    ensures events[n].Drove? ==> Continues(Conversation(events[..n], notation).messages, events[n].more)
  {
    forall k: nat | k < n && events[..n][k].Drove?
      ensures Continues(Conversation(events[..n][..k], notation).messages, events[..n][k].more)
    {
      assert events[..n][..k] == events[..k];
    }
  }

  lemma EventKeepsWhole(h: History, e: Event, notation: Notation)
    requires AnsweredExceptLast(h.messages) && (e.Drove? ==> Continues(h.messages, e.more))
    ensures AnsweredExceptLast(After(h, e, notation).messages)
    ensures e.Asked? ==> AllAnswered(After(h, e, notation).messages)
  {
    match e
    case Noted(note) =>
      if !CallsOpen(h.messages) {
        NoteKeepsAnswersIff(h.messages, note, notation);
      }
    case Asked(text) => TurnStartsWhole(h.messages, h.notes, text, notation);
    case Drove(more) => DriveKeepsAnswers(h.messages, more);
  }

  // ---- Roles keep alternating ----

  ghost predicate UsersApart(ms: seq<Message>) {
    forall i, j :: 0 <= i < j < |ms| && j == i + 1 ==> !(ms[i].role == User && ms[j].role == User)
  }

  /** A note starts a second user message only after one that has neither text nor blocks to join. */
  lemma NoteKeepsTurnsIff(ms: seq<Message>, note: string, notation: Notation)
    requires UsersApart(ms)
    ensures UsersApart(WithNote(ms, note, notation)) <==>
      !(ms != [] && ms[|ms| - 1].role == User && ms[|ms| - 1].content.Missing?)
  {
    var more := WithNote(ms, note, notation);
    if ms != [] && ms[|ms| - 1].role == User && ms[|ms| - 1].content.Missing? {
      assert more[|ms| - 1].role == User && more[|ms|].role == User;
    }
  }

  /** A question starts a second user message exactly after one that is not all notes. */
  lemma QuestionKeepsTurnsIff(ms: seq<Message>, notes: map<Run, string>, text: string, notation: Notation)
    requires UsersApart(ms)
    ensures UsersApart(WithQuestion(ms, notes, text, notation)) <==>
      !(ms != [] && ms[|ms| - 1].role == User && !IsNoteMessage(notation, notes, ms[|ms| - 1]))
  {
    var more := WithQuestion(ms, notes, text, notation);
    if ms != [] && ms[|ms| - 1].role == User && !IsNoteMessage(notation, notes, ms[|ms| - 1]) {
      assert more[|ms| - 1].role == User && more[|ms|].role == User;
    }
  }

  /** A message of notes stays one under a further note unless that note replaces a text in it. */
  lemma NoteJoinsNotesIff(ms: seq<Message>, notes: map<Run, string>, note: string, notation: Notation)
    requires ms != [] && IsNoteMessage(notation, notes, ms[|ms| - 1]) && notation.parse(note).Some?
    ensures var more := WithNote(ms, note, notation);
      var run := notation.parse(note).value;
      && |more| == |ms|
      && (IsNoteMessage(notation, notes[run := note], more[|more| - 1]) <==>
          forall b :: b in ms[|ms| - 1].content.blocks && notation.parse(b.text) == Some(run) ==> b.text == note)
  {
  }

  /** After the model has spoken, a note and then a question make one user message holding both. */
  lemma NoteThenQuestion(ms: seq<Message>, notes: map<Run, string>, note: string, text: string, notation: Notation)
    requires ms == [] || ms[|ms| - 1].role == Assistant
    requires notation.parse(note).Some?
    ensures WithQuestion(WithNote(ms, note, notation), notes[notation.parse(note).value := note], text, notation) ==
      ms + [Message(User, Blocks([Text(note), Text(notation.neutralise(text))]))]
  {
    var noted := WithNote(ms, note, notation);
    var after := notes[notation.parse(note).value := note];
    assert noted[|noted| - 1].content.blocks == [Text(note)];
    assert IsNoteMessage(notation, after, noted[|noted| - 1]);
    assert [Text(note)] + [Text(notation.neutralise(text))] == [Text(note), Text(notation.neutralise(text))];
  }

  // ---- Replaying a saved conversation ----

  datatype Shown = Ran(call: Call, ok: bool) | Denied(call: Call)

  const UNKNOWN := Call("unknown", "")

  predicate Matters(role: Role, b: Block) {
    (role == User && b.ToolResult?) || (role == Assistant && b.ToolUse?)
  }

  function Relevant(role: Role, blocks: seq<Block>): seq<Block> {
    if blocks == [] then []
    else
      var n := |blocks| - 1;
      Relevant(role, blocks[..n]) + if Matters(role, blocks[n]) then [blocks[n]] else []
  }

  /** The calls and results of a history, in order. */
  function Trace(ms: seq<Message>): seq<Block> {
    if ms == [] then []
    else
      var n := |ms| - 1;
      Trace(ms[..n]) + if ms[n].content.Blocks? then Relevant(ms[n].role, ms[n].content.blocks) else []
  }

  /** The most recent call with an id, unless a result with that id came since. */
  function Named(trace: seq<Block>, id: string): Call {
    if trace == [] then UNKNOWN
    else
      var n := |trace| - 1;
      var b := trace[n];
      if b.ToolUse? && b.id == id then b.call
      else if b.ToolResult? && b.id == id then UNKNOWN
      else Named(trace[..n], id)
  }

  function ShownAs(b: Block, call: Call): Shown
    requires b.ToolResult?
  {
    if b.failed && b.denied then Denied(call) else Ran(call, !b.failed)
  }

  /** One entry a result, each naming the call it answers. */
  function ShownFor(trace: seq<Block>): seq<Shown> {
    if trace == [] then []
    else
      var n := |trace| - 1;
      ShownFor(trace[..n]) + if trace[n].ToolResult? then [ShownAs(trace[n], Named(trace[..n], trace[n].id))] else []
  }

  /** The table of open calls holds, for every id, the call its next result will name. */
  ghost predicate Tracks(open: map<string, Call>, trace: seq<Block>) {
    forall id :: (if id in open then open[id] else UNKNOWN) == Named(trace, id)
  }

  lemma {:induction false} NamedSnoc(trace: seq<Block>, b: Block, id: string)
    ensures Named(trace + [b], id) ==
      if b.ToolUse? && b.id == id then b.call
      else if b.ToolResult? && b.id == id then UNKNOWN
      else Named(trace, id)
  {
  }

  lemma {:induction false} TrackUse(open: map<string, Call>, trace: seq<Block>, b: Block)
    requires Tracks(open, trace) && b.ToolUse?
    ensures Tracks(open[b.id := b.call], trace + [b])
    ensures ShownFor(trace + [b]) == ShownFor(trace)
  {
  }

  lemma {:induction false} TrackResult(open: map<string, Call>, trace: seq<Block>, b: Block)
    requires Tracks(open, trace) && b.ToolResult?
    ensures Tracks(open - {b.id}, trace + [b])
    ensures ShownFor(trace + [b]) == ShownFor(trace) + [ShownAs(b, if b.id in open then open[b.id] else UNKNOWN)]
  {
  }

  lemma {:induction false} RelevantStep(role: Role, blocks: seq<Block>, j: nat, trace: seq<Block>)
    requires j < |blocks|
    ensures trace + Relevant(role, blocks[..j + 1]) ==
      trace + Relevant(role, blocks[..j]) + if Matters(role, blocks[j]) then [blocks[j]] else []
  {
    assert blocks[..j + 1][..j] == blocks[..j];
  }

  lemma TraceStep(ms: seq<Message>, i: nat)
    requires i < |ms|
    ensures Trace(ms[..i + 1]) ==
      Trace(ms[..i]) + if ms[i].content.Blocks? then Relevant(ms[i].role, ms[i].content.blocks) else []
  {
    assert ms[..i + 1][..i] == ms[..i];
  }

  /** The tool entries of a replayed transcript. */
  method ReplayTools(ms: seq<Message>) returns (shown: seq<Shown>)
    ensures shown == ShownFor(Trace(ms))
  {
    shown := [];
    var open: map<string, Call> := map[];
    ghost var trace: seq<Block> := [];
    var i := 0;
    while i < |ms|
      invariant 0 <= i <= |ms| && trace == Trace(ms[..i])
      invariant shown == ShownFor(trace) && Tracks(open, trace)
    {
      TraceStep(ms, i);
      if ms[i].content.Blocks? {
        shown, open := ReplayMessage(ms[i].role, ms[i].content.blocks, shown, open, trace);
        trace := trace + Relevant(ms[i].role, ms[i].content.blocks);
      }
      i := i + 1;
    }
    assert ms[..i] == ms;
  }

  method ReplayMessage(role: Role, blocks: seq<Block>, before: seq<Shown>, table: map<string, Call>,
                       ghost trace: seq<Block>)
    returns (shown: seq<Shown>, open: map<string, Call>)
    requires before == ShownFor(trace) && Tracks(table, trace)
    ensures shown == ShownFor(trace + Relevant(role, blocks)) && Tracks(open, trace + Relevant(role, blocks))
  {
    shown, open := before, table;
    ghost var sofar := trace;
    var j := 0;
    while j < |blocks|
      invariant 0 <= j <= |blocks| && sofar == trace + Relevant(role, blocks[..j])
      invariant shown == ShownFor(sofar) && Tracks(open, sofar)
    {
      var b := blocks[j];
      RelevantStep(role, blocks, j, trace);
      if role == User && b.ToolResult? {
        TrackResult(open, sofar, b);
        var call := if b.id in open then open[b.id] else UNKNOWN;
        open := open - {b.id};
        if b.failed && b.denied {
          shown := shown + [Denied(call)];
        } else {
          shown := shown + [Ran(call, !b.failed)];
        }
        sofar := sofar + [b];
      } else if role == Assistant && b.ToolUse? {
        TrackUse(open, sofar, b);
        open := open[b.id := b.call];
        sofar := sofar + [b];
      }
      j := j + 1;
    }
    assert blocks[..j] == blocks;
  }

  ghost predicate LastUse(blocks: seq<Block>, k: nat) {
    && k < |blocks| && blocks[k].ToolUse?
    && forall i :: k < i < |blocks| && blocks[i].ToolUse? ==> blocks[i].id != blocks[k].id
  }

  lemma {:induction false} NamedInCalls(before: seq<Block>, blocks: seq<Block>, k: nat)
    requires LastUse(blocks, k)
    ensures Named(before + Relevant(Assistant, blocks), blocks[k].id) == blocks[k].call
  {
    var n: nat := |blocks| - 1;
    var trace := before + Relevant(Assistant, blocks[..n]);
    assert before + Relevant(Assistant, blocks) == if blocks[n].ToolUse? then trace + [blocks[n]] else trace;
    NamedSnoc(trace, blocks[n], blocks[k].id);
    if k < n {
      NamedInCalls(before, blocks[..n], k);
    }
  }

  lemma {:induction false} NamedPastResults(before: seq<Block>, blocks: seq<Block>, id: string)
    requires forall i :: 0 <= i < |blocks| && blocks[i].ToolResult? ==> blocks[i].id != id
    ensures Named(before + Relevant(User, blocks), id) == Named(before, id)
  {
    if blocks == [] {
      assert before + [] == before;
    } else {
      var n: nat := |blocks| - 1;
      NamedPastResults(before, blocks[..n], id);
      var trace := before + Relevant(User, blocks[..n]);
      assert before + Relevant(User, blocks) == if blocks[n].ToolResult? then trace + [blocks[n]] else trace;
      NamedSnoc(trace, blocks[n], id);
    }
  }

  lemma {:induction false} ShownPrefix(a: seq<Block>, b: seq<Block>)
    ensures ShownFor(a) <= ShownFor(a + b)
  {
    if b == [] {
      assert a + b == a;
    } else {
      var n: nat := |b| - 1;
      ShownPrefix(a, b[..n]);
      assert (a + b)[..|a + b| - 1] == a + b[..n];
    }
  }

  lemma {:induction false} RelevantPrefix(role: Role, blocks: seq<Block>, j: nat)
    requires j <= |blocks|
    ensures Relevant(role, blocks[..j]) <= Relevant(role, blocks)
  {
    if j < |blocks| {
      var n: nat := |blocks| - 1;
      RelevantPrefix(role, blocks[..n], j);
      assert blocks[..n][..j] == blocks[..j];
    } else {
      assert blocks[..j] == blocks;
    }
  }

  lemma {:induction false} TracePrefix(ms: seq<Message>, n: nat)
    requires n <= |ms|
    ensures Trace(ms[..n]) <= Trace(ms)
  {
    if n < |ms| {
      var m: nat := |ms| - 1;
      TracePrefix(ms[..m], n);
      assert ms[..m][..n] == ms[..n];
    } else {
      assert ms[..n] == ms;
    }
  }

  /** The calls and results up to result `j` of message `i` come first in the whole history. */
  lemma {:induction false} ResultInTrace(ms: seq<Message>, i: nat, j: nat, before: seq<Block>)
    requires i < |ms| && ms[i].role == User && ms[i].content.Blocks? && j < |ms[i].content.blocks|
    requires ms[i].content.blocks[j].ToolResult?
    requires before == Trace(ms[..i]) + Relevant(User, ms[i].content.blocks[..j])
    ensures before + [ms[i].content.blocks[j]] <= Trace(ms)
  {
    var blocks := ms[i].content.blocks;
    var n: nat := j + 1;
    TraceStep(ms, i);
    RelevantPrefix(User, blocks, n);
    RelevantStep(User, blocks, j, Trace(ms[..i]));
    TracePrefix(ms, i + 1);
    assert before + [blocks[j]] == Trace(ms[..i]) + Relevant(User, blocks[..n]);
  }

  /** A result whose id no call before it has is replayed under no known tool. */
  lemma {:induction false} UncalledIsUnknown(trace: seq<Block>, id: string)
    requires forall b :: b in trace && b.ToolUse? ==> b.id != id
    ensures Named(trace, id) == Call("unknown", "")
  {
    if trace != [] {
      UncalledIsUnknown(trace[..|trace| - 1], id);
    }
  }

  /**
   A result is replayed under the call it answers, the last one with its id in the message right before,
   and as what became of it, given that it is the first result with that id.
   */
  lemma ResultNamesItsCall(ms: seq<Message>, i: nat, k: nat, j: nat)
    requires i + 1 < |ms| && ms[i].role == Assistant && ms[i + 1].role == User
    requires ms[i].content.Blocks? && ms[i + 1].content.Blocks?
    requires LastUse(ms[i].content.blocks, k)
    requires var results := ms[i + 1].content.blocks;
      && j < |results| && results[j].ToolResult? && results[j].id == ms[i].content.blocks[k].id
      && forall x :: 0 <= x < j && results[x].ToolResult? ==> results[x].id != results[j].id
    ensures
      var shown, call, result := ShownFor(Trace(ms)), ms[i].content.blocks[k].call, ms[i + 1].content.blocks[j];
      exists x :: 0 <= x < |shown|
               && shown[x] == if result.failed && result.denied then Denied(call) else Ran(call, !result.failed)
  {
    var results := ms[i + 1].content.blocks;
    var before := Trace(ms[..i + 1]) + Relevant(User, results[..j]);
    assert ms[..i + 1][..i] == ms[..i];
    NamedInCalls(Trace(ms[..i]), ms[i].content.blocks, k);
    NamedPastResults(Trace(ms[..i + 1]), results[..j], ms[i].content.blocks[k].id);
    ResultInTrace(ms, i + 1, j, before);
    var x := ShownEntry(Trace(ms), before, results[j]);
  }

  /** A result within a history has an entry of its own. */
  lemma {:induction false} ShownEntry(trace: seq<Block>, before: seq<Block>, b: Block) returns (x: nat)
    requires before + [b] <= trace && b.ToolResult?
    ensures x < |ShownFor(trace)| && ShownFor(trace)[x] == ShownAs(b, Named(before, b.id))
  {
    var upTo := before + [b];
    assert upTo[..|upTo| - 1] == before;
    assert trace == upTo + trace[|upTo|..];
    ShownPrefix(upTo, trace[|upTo|..]);
    x := |ShownFor(upTo)| - 1;
    assert ShownFor(trace)[x] == ShownFor(upTo)[x];
  }
}
