/** Loading conversations and questions, with limits on samples and on queries. */
module LocomoLoader {
  import opened Wrappers
  import opened Sequences
  import opened StableSort
  import opened EvidenceMetrics
  import opened Numerals

  datatype Turn =
    | NotATurn
    | Turn(speaker: string, text: string, caption: string, id: Option<string>)

  /** One key of a conversation dictionary; `number` is set when the key is `session_<number>`
      and its value is a list. */
  datatype Entry = Entry(key: string, number: Option<nat>, date: Option<string>, turns: seq<Turn>)

  datatype Conversation =
    | Turns(turns: seq<Turn>)
    | Sessions(entries: seq<Entry>, names: map<string, string>)
    | Unsupported

  datatype EvidenceItem = Id(id: string) | Reference(target: Option<string>) | Ignored

  datatype Evidence = NoEvidence | One(id: string) | Many(items: seq<EvidenceItem>)

  datatype Question = Question(text: string, evidence: Evidence, category: string)

  datatype Sample = Sample(id: Option<string>, conversation: Option<Conversation>, questions: seq<Question>)

  datatype Dataset = Dataset(memories: seq<LongMemory>, queries: seq<EvidenceQuery>)

  datatype LoadError = MissingConversation | UnsupportedConversation

  // ----- Names

  function SampleId(sample: Sample, index: nat): string {
    if sample.id.Some? && sample.id.value != "" then sample.id.value
    else "sample-" + Padded(Decimal(index), 4)
  }

  function Namespace(sid: string): string {
    "locomo:" + sid
  }

  function Qualified(sid: string, id: string): string {
    sid + "::" + id
  }

  // ----- Turns

  function JoinParts(parts: seq<string>): string {
    if parts == [] then "" else if |parts| == 1 then parts[0] else parts[0] + " " + JoinParts(parts[1..])
  }

  function TurnText(turn: Turn, speaker: string, date: Option<string>): string
    requires turn.Turn?
  {
    JoinParts(
      (if date.Some? && date.value != "" then ["[" + date.value + "]"] else []) +
      (if turn.text != "" then [speaker + ": " + turn.text] else []) +
      (if turn.caption != "" then ["Image caption: " + turn.caption] else []))
  }

  function TurnId(turn: Turn, key: string, offset: nat): string
    requires turn.Turn?
  {
    if turn.id.Some? && turn.id.value != "" then turn.id.value else key + ":" + Decimal(offset)
  }

  function SpeakerName(names: map<string, string>, speaker: string): string {
    if speaker in names && names[speaker] != "" then names[speaker] else speaker
  }

  /** What is not a turn, or renders to nothing, is skipped. */
  predicate Renders(date: Option<string>, names: map<string, string>, turn: Turn) {
    turn.Turn? && TurnText(turn, SpeakerName(names, turn.speaker), date) != ""
  }

  function TurnMemory(sid: string, key: string, date: Option<string>, names: map<string, string>, turn: Turn,
        offset: nat): LongMemory
    requires Renders(date, names, turn)
  {
    LongMemory(Qualified(sid, TurnId(turn, key, offset)), TurnText(turn, SpeakerName(names, turn.speaker), date),
        Namespace(sid))
  }

  /** The memories of a list of turns, numbered from one. */
  function TurnMemories(sid: string, key: string, date: Option<string>, names: map<string, string>,
        turns: seq<Turn>): seq<LongMemory> {
    if turns == [] then []
    else
      var last := turns[|turns| - 1];
      TurnMemories(sid, key, date, names, turns[..|turns| - 1]) +
      if Renders(date, names, last) then [TurnMemory(sid, key, date, names, last, |turns|)] else []
  }

  /** A turn renders to something exactly when it has a date, a text or a caption. */
  lemma RendersExactly(date: Option<string>, names: map<string, string>, turn: Turn)
    ensures Renders(date, names, turn) <==>
              turn.Turn? && ((date.Some? && date.value != "") || turn.text != "" || turn.caption != "")
  {
  }

  /** Two pieces with a blank between them, where both are there. */
  function Spaced(a: string, b: string): string {
    if a == "" then b else if b == "" then a else a + " " + b
  }

  function DatePiece(date: Option<string>): string {
    if date.Some? && date.value != "" then "[" + date.value + "]" else ""
  }

  function WordsPiece(speaker: string, words: string): string {
    if words != "" then speaker + ": " + words else ""
  }

  function CaptionPiece(caption: string): string {
    if caption != "" then "Image caption: " + caption else ""
  }

  /** The rendered text is the date, the speaker's words and the caption, in this order, whichever are there. */
  lemma TurnTextExactly(turn: Turn, speaker: string, date: Option<string>)
    requires turn.Turn?
    ensures TurnText(turn, speaker, date)
         == Spaced(Spaced(DatePiece(date), WordsPiece(speaker, turn.text)), CaptionPiece(turn.caption))
  {
    var p, q, r := DatePiece(date), WordsPiece(speaker, turn.text), CaptionPiece(turn.caption);
    ThreeParts(p, q, r);
    assert DatePiece(date) != "" <==> date.Some? && date.value != "";
    assert WordsPiece(speaker, turn.text) != "" <==> turn.text != "";
    assert CaptionPiece(turn.caption) != "" <==> turn.caption != "";
  }

  lemma TwoParts(p: string, q: string)
    requires p != "" && q != ""
    ensures JoinParts([p, q]) == Spaced(p, q)
  {
    assert [p, q][1..] == [q];
  }

  lemma ThreeParts(p: string, q: string, r: string)
    ensures JoinParts((if p != "" then [p] else []) + (if q != "" then [q] else []) + (if r != "" then [r] else []))
         == Spaced(Spaced(p, q), r)
  {
    var parts := (if p != "" then [p] else []) + (if q != "" then [q] else []) + (if r != "" then [r] else []);
    if p != "" && q != "" && r != "" {
      assert parts == [p, q, r] && [p, q, r][1..] == [q, r];
      TwoParts(q, r);
      assert p + " " + (q + " " + r) == (p + " " + q) + " " + r;
    } else if p != "" && q != "" {
      assert parts == [p, q];
      TwoParts(p, q);
    } else if p != "" && r != "" {
      assert parts == [p, r];
      TwoParts(p, r);
    } else if q != "" && r != "" {
      assert parts == [q, r];
      TwoParts(q, r);
    } else {
      assert parts == [] || parts == [p] || parts == [q] || parts == [r];
    }
  }

  ghost predicate PieceAt(text: string, i: nat, piece: string) {
    i + |piece| <= |text| && text[i..i + |piece|] == piece
  }

  /** The text holds the date in brackets, then the speaker with these words, then the caption, each where
      there is one, as contiguous pieces that do not overlap. */
  ghost predicate Says(text: string, date: Option<string>, speaker: string, words: string, caption: string) {
    exists i: nat, j: nat, k: nat ::
      && PieceAt(text, i, DatePiece(date)) && i + |DatePiece(date)| <= j
      && PieceAt(text, j, WordsPiece(speaker, words)) && j + |WordsPiece(speaker, words)| <= k
      && PieceAt(text, k, CaptionPiece(caption))
  }

  lemma SpacedPieces(a: string, b: string)
    ensures var s := Spaced(a, b);
            |s| >= |a| + |b| && PieceAt(s, 0, a) && PieceAt(s, |s| - |b|, b)
  {
    var s := Spaced(a, b);
    if a != "" && b != "" {
      assert s[..|a|] == a;
      assert s[|a| + 1..] == b && |s| - |b| == |a| + 1;
    }
  }

  lemma PieceStays(s: string, i: nat, piece: string, r: string)
    requires PieceAt(s, i, piece)
    ensures PieceAt(Spaced(s, r), i, piece)
  {
    SpacedPieces(s, r);
    var t := Spaced(s, r);
    assert t[..|s|] == s;
    assert t[i..i + |piece|] == s[i..i + |piece|];
  }

  lemma PiecesInOrder(p: string, q: string, r: string)
    ensures var head, text := Spaced(p, q), Spaced(Spaced(p, q), r);
            && PieceAt(text, 0, p)
            && |p| <= |head| - |q| && PieceAt(text, |head| - |q|, q)
            && |head| <= |text| - |r| && PieceAt(text, |text| - |r|, r)
  {
    var head := Spaced(p, q);
    SpacedPieces(p, q);
    SpacedPieces(head, r);
    hide Spaced;
    PieceStays(head, 0, p, r);
    PieceStays(head, |head| - |q|, q, r);
  }

  lemma TurnTextSays(turn: Turn, speaker: string, date: Option<string>)
    requires turn.Turn?
    ensures Says(TurnText(turn, speaker, date), date, speaker, turn.text, turn.caption)
  {
    TurnTextExactly(turn, speaker, date);
    PiecesInOrder(DatePiece(date), WordsPiece(speaker, turn.text), CaptionPiece(turn.caption));
    hide PieceAt;
    hide DatePiece;
    hide WordsPiece;
    hide CaptionPiece;
    hide Spaced;
    hide TurnText;
  }

  /** A memory says what its turn says, by the speaker's full name where one is known, under the turn's own
      id or else its position, in its namespace. */
  lemma TurnMemorySays(sid: string, key: string, date: Option<string>, names: map<string, string>, turn: Turn,
        offset: nat)
    requires Renders(date, names, turn)
    ensures var m := TurnMemory(sid, key, date, names, turn, offset);
            && (turn.speaker in names && names[turn.speaker] != "" ==>
                  Says(m.text, date, names[turn.speaker], turn.text, turn.caption))
            && (turn.speaker !in names || names[turn.speaker] == "" ==>
                  Says(m.text, date, turn.speaker, turn.text, turn.caption))
            && m.namespace == "locomo:" + sid
            && (turn.id.Some? && turn.id.value != "" ==> m.id == sid + "::" + turn.id.value)
            && (turn.id == None || turn.id == Some("") ==> m.id == sid + "::" + (key + ":" + Decimal(offset)))
  {
    TurnTextSays(turn, SpeakerName(names, turn.speaker), date);
  }

  /** Increasing positions that select exactly the elements with a property. */
  ghost predicate Selects(at: seq<nat>, n: nat, chosen: int -> bool) {
    && (forall m :: 0 <= m < |at| ==> at[m] < n && chosen(at[m]))
    && (forall l, m :: 0 <= l < m < |at| ==> at[l] < at[m])
    && (forall i: nat :: i < n && chosen(i) ==> i in at)
  }

  lemma SelectsStep(at: seq<nat>, n: nat, chosen: int -> bool) returns (next: seq<nat>)
    requires Selects(at, n, chosen)
    ensures next == at + (if chosen(n) then [n] else []) && Selects(next, n + 1, chosen)
  {
    next := at + (if chosen(n) then [n] else []);
    assert chosen(n) ==> next[|at|] == n;
    forall i: nat | i < n + 1 && chosen(i) ensures i in next {
      assert i < n ==> i in at;
    }
  }

  /** The memories are those of the turns at these positions, each numbered by its own. */
  ghost predicate MemoriesAt(memories: seq<LongMemory>, sid: string, key: string, date: Option<string>,
        names: map<string, string>,
                             turns: seq<Turn>, at: seq<nat>) {
    && |memories| == |at|
    && forall m :: 0 <= m < |at| ==>
         at[m] < |turns| && Renders(date, names, turns[at[m]])
         && memories[m] == TurnMemory(sid, key, date, names, turns[at[m]], at[m] + 1)
  }

  function RenderingAt(date: Option<string>, names: map<string, string>, turns: seq<Turn>): int -> bool {
    i => 0 <= i < |turns| && Renders(date, names, turns[i])
  }

  lemma TurnMemoriesStep(sid: string, key: string, date: Option<string>, names: map<string, string>, turns: seq<Turn>,
        n: nat)
    requires n < |turns|
    ensures TurnMemories(sid, key, date, names, turns[..n + 1])
         == TurnMemories(sid, key, date, names, turns[..n])
            + if Renders(date, names, turns[n]) then [TurnMemory(sid, key, date, names, turns[n], n + 1)] else []
  {
    TakeTake(turns, n);
  }

  lemma MemoriesAtSnoc(memories: seq<LongMemory>, sid: string, key: string, date: Option<string>,
        names: map<string, string>,
                       turns: seq<Turn>, at: seq<nat>, n: nat)
    requires n < |turns| && Renders(date, names, turns[n]) && MemoriesAt(memories, sid, key, date, names, turns, at)
    ensures MemoriesAt(memories + [TurnMemory(sid, key, date, names, turns[n], n + 1)], sid, key, date, names, turns,
        at + [n])
  {
  }

  /** These positions account for the memories of the first `n` turns. */
  ghost predicate Accounts(at: seq<nat>, sid: string, key: string, date: Option<string>, names: map<string, string>,
                           turns: seq<Turn>, n: nat)
    requires n <= |turns|
  {
    && Selects(at, n, RenderingAt(date, names, turns))
    && MemoriesAt(TurnMemories(sid, key, date, names, turns[..n]), sid, key, date, names, turns, at)
  }

  lemma AccountsStep(at: seq<nat>, sid: string, key: string, date: Option<string>, names: map<string, string>,
        turns: seq<Turn>, n: nat)
    returns (next: seq<nat>)
    requires n < |turns| && Accounts(at, sid, key, date, names, turns, n)
    ensures Accounts(next, sid, key, date, names, turns, n + 1)
  {
    hide Selects;
    hide MemoriesAt;
    hide TurnMemories;
    hide Renders;
    next := SelectsStep(at, n, RenderingAt(date, names, turns));
    TurnMemoriesStep(sid, key, date, names, turns, n);
    if Renders(date, names, turns[n]) {
      MemoriesAtSnoc(TurnMemories(sid, key, date, names, turns[..n]), sid, key, date, names, turns, at, n);
    } else {
      assert next == at;
      assert TurnMemories(sid, key, date, names, turns[..n + 1]) == TurnMemories(sid, key, date, names, turns[..n]);
    }
  }

  /** The memories are those of exactly the turns that render, each numbered by its own position, in order. */
  lemma {:induction false} TurnMemoriesByPosition(sid: string, key: string, date: Option<string>,
        names: map<string, string>,
                                                  turns: seq<Turn>, n: nat) returns (at: seq<nat>)
    requires n <= |turns|
    ensures Accounts(at, sid, key, date, names, turns, n)
    decreases n
  {
    at := [];
    if n > 0 {
      hide Accounts;
      var before := TurnMemoriesByPosition(sid, key, date, names, turns, n - 1);
      at := AccountsStep(before, sid, key, date, names, turns, n - 1);
    }
  }
  lemma RenderingIsSelected(date: Option<string>, names: map<string, string>, turns: seq<Turn>, at: seq<nat>, i: nat)
    requires Selects(at, |turns|, RenderingAt(date, names, turns)) && i < |turns| && Renders(date, names, turns[i])
    ensures i in at
  {
    hide Renders;
    assert RenderingAt(date, names, turns)(i);
  }

  lemma TurnIsLoaded(sid: string, key: string, date: Option<string>, names: map<string, string>,
        turns: seq<Turn>, i: nat) returns (m: LongMemory)
    requires i < |turns| && Renders(date, names, turns[i])
    ensures m in TurnMemories(sid, key, date, names, turns) && m == TurnMemory(sid, key, date, names, turns[i], i + 1)
  {
    var at := TurnMemoriesByPosition(sid, key, date, names, turns, |turns|);
    TakeAll(turns);
    RenderingIsSelected(date, names, turns, at, i);
    hide Renders;
    hide TurnMemory;
    hide TurnMemories;
    hide Selects;
    var n :| 0 <= n < |at| && at[n] == i;
    m := TurnMemories(sid, key, date, names, turns)[n];
  }

  /** Every turn that renders is loaded as a memory that says what it says. */
  lemma LoadedTurnsSay(sid: string, key: string, date: Option<string>, names: map<string, string>,
        turns: seq<Turn>, i: nat) returns (m: LongMemory)
    requires i < |turns| && Renders(date, names, turns[i])
    ensures m in TurnMemories(sid, key, date, names, turns) && m == TurnMemory(sid, key, date, names, turns[i], i + 1)
    ensures Says(m.text, date, SpeakerName(names, turns[i].speaker), turns[i].text, turns[i].caption)
  {
    m := TurnIsLoaded(sid, key, date, names, turns, i);
    TurnTextSays(turns[i], SpeakerName(names, turns[i].speaker), date);
    hide Says;
    hide TurnText;
    hide TurnMemories;
  }

  predicate EarlierSession(a: Entry, b: Entry) {
    a.number.None? || (b.number.Some? && a.number.value <= b.number.value)
  }

  function IsSession(): Entry -> bool {
    (e: Entry) => e.number.Some?
  }

  /** `_session_keys`: the sessions by number, ties in dictionary order. */
  function SessionsInOrder(entries: seq<Entry>): seq<Entry> {
    Sort(EarlierSession, Filter(IsSession(), entries))
  }

  function SessionMemories(sid: string, names: map<string, string>, sessions: seq<Entry>): seq<LongMemory> {
    if sessions == [] then []
    else
      var last := sessions[|sessions| - 1];
      SessionMemories(sid, names, sessions[..|sessions| - 1])
          + TurnMemories(sid, last.key, last.date, names, last.turns)
  }

  function ConversationMemories(sid: string, c: Conversation): seq<LongMemory> {
    match c
    case Turns(turns) => TurnMemories(sid, "conversation", None, map[], turns)
    case Sessions(entries, names) => SessionMemories(sid, names, SessionsInOrder(entries))
    case Unsupported => []
  }

  method CollectTurns(sid: string, key: string, date: Option<string>, names: map<string, string>, turns: seq<Turn>)
    returns (memories: seq<LongMemory>)
    ensures memories == TurnMemories(sid, key, date, names, turns)
  {
    memories := [];
    for n := 0 to |turns|
      invariant memories == TurnMemories(sid, key, date, names, turns[..n])
    {
      TakeTake(turns, n);
      if turns[n].NotATurn? {
        continue;
      }
      var text := TurnText(turns[n], SpeakerName(names, turns[n].speaker), date);
      if text == "" {
        continue;
      }
      memories := memories + [LongMemory(Qualified(sid, TurnId(turns[n], key, n + 1)), text, Namespace(sid))];
    }
    TakeAll(turns);
  }

  /** `_iter_turns`. */
  method IterTurns(sid: string, c: Conversation) returns (r: Result<seq<LongMemory>, LoadError>)
    ensures r == if c.Unsupported? then Err(UnsupportedConversation) else Ok(ConversationMemories(sid, c))
  {
    match c
    case Turns(turns) =>
      var memories := CollectTurns(sid, "conversation", None, map[], turns);
      r := Ok(memories);
    case Unsupported =>
      r := Err(UnsupportedConversation);
    case Sessions(entries, names) =>
      var sessions := SessionsInOrder(entries);
      var memories: seq<LongMemory> := [];
      for n := 0 to |sessions|
        invariant memories == SessionMemories(sid, names, sessions[..n])
      {
        TakeTake(sessions, n);
        var more := CollectTurns(sid, sessions[n].key, sessions[n].date, names, sessions[n].turns);
        memories := memories + more;
      }
      TakeAll(sessions);
      r := Ok(memories);
  }

  // ----- Evidence

  /** The id an item names, if any. */
  function ItemId(item: EvidenceItem): Option<string> {
    match item
    case Id(id) => Some(id)
    case Reference(target) => if target == Some("") then None else target
    case Ignored => None
  }

  function ItemIds(items: seq<EvidenceItem>): seq<string> {
    if items == [] then []
    else
      var last := ItemId(items[|items| - 1]);
      ItemIds(items[..|items| - 1]) + if last.Some? then [last.value] else []
  }

  /** The ids are those of the items that name one, in order. */
  lemma {:induction false} ItemIdsByPosition(items: seq<EvidenceItem>, n: nat) returns (at: seq<nat>)
    requires n <= |items|
    ensures Selects(at, n, i => 0 <= i < |items| && ItemId(items[i]).Some?)
    ensures var ids := ItemIds(items[..n]);
            && |ids| == |at|
            && forall m :: 0 <= m < |at| ==> at[m] < |items| && ItemId(items[at[m]]) == Some(ids[m])
  {
    var chosen := i => 0 <= i < |items| && ItemId(items[i]).Some?;
    at := [];
    if n > 0 {
      var before := ItemIdsByPosition(items, n - 1);
      at := SelectsStep(before, n - 1, chosen);
      TakeTake(items, n - 1);
    }
  }

  function RawEvidenceIds(e: Evidence): seq<string> {
    match e
    case NoEvidence => []
    case One(id) => if id == "" then [] else [id]
    case Many(items) => ItemIds(items)
  }

  /** `_evidence_ids`. */
  method EvidenceIds(e: Evidence) returns (ids: seq<string>)
    ensures ids == RawEvidenceIds(e)
  {
    match e
    case NoEvidence => ids := [];
    case One(id) => ids := if id == "" then [] else [id];
    case Many(items) =>
      ids := [];
      for n := 0 to |items|
        invariant ids == ItemIds(items[..n])
      {
        TakeTake(items, n);
        match items[n]
        case Id(id) => ids := ids + [id];
        case Reference(target) =>
          if target.Some? && target.value != "" {
            ids := ids + [target.value];
          }
        case Ignored =>
      }
      TakeAll(items);
  }

  function MemoryId(m: LongMemory): string {
    m.id
  }

  function QualifiedId(sid: string): string -> string {
    id => Qualified(sid, id)
  }

  function KnownTo(known: seq<string>): string -> bool {
    id => id in known
  }

  /** Evidence that names a memory of the same sample. */
  function KnownEvidence(sid: string, known: seq<string>, e: Evidence): seq<string> {
    Filter(KnownTo(known), Map(QualifiedId(sid), RawEvidenceIds(e)))
  }

  function QuestionQuery(sid: string, known: seq<string>, q: Question, index: nat): EvidenceQuery {
    EvidenceQuery(sid + "::qa_" + Padded(Decimal(index), 4), Namespace(sid), KnownEvidence(sid, known, q.evidence), [],
        q.category)
  }

  predicate Usable(sid: string, known: seq<string>, q: Question, answerless: bool) {
    q.text != "" && (KnownEvidence(sid, known, q.evidence) != [] || answerless)
  }

  /** All queries of a sample, without a limit. */
  function SampleQueries(sid: string, known: seq<string>, questions: seq<Question>,
        answerless: bool): seq<EvidenceQuery> {
    if questions == [] then []
    else
      var last := questions[|questions| - 1];
      SampleQueries(sid, known, questions[..|questions| - 1], answerless) +
      if Usable(sid, known, last, answerless) then [QuestionQuery(sid, known, last, |questions|)] else []
  }

  function QueryIdAt(sid: string, index: nat): string {
    sid + "::qa_" + Padded(Decimal(index), 4)
  }

  /** Different positions give different ids. */
  lemma QueryIdsApart(sid: string, i: nat, j: nat)
    requires i != j
    ensures QueryIdAt(sid, i) != QueryIdAt(sid, j)
  {
    DecimalReads(i);
    DecimalReads(j);
    PaddedReads(Decimal(i), 4);
    PaddedReads(Decimal(j), 4);
    var n := |sid + "::qa_"|;
    assert QueryIdAt(sid, i)[n..] == Padded(Decimal(i), 4) && QueryIdAt(sid, j)[n..] == Padded(Decimal(j), 4);
  }

  /** A sample is known by its own id, and samples without one are told apart by their positions. */
  lemma SampleIdsApart(a: Sample, i: nat, b: Sample, j: nat)
    ensures a.id.Some? && a.id.value != "" ==> Some(SampleId(a, i)) == a.id
    ensures (a.id == None || a.id == Some("")) && (b.id == None || b.id == Some("")) && i != j ==>
              SampleId(a, i) != SampleId(b, j)
  {
    DecimalReads(i);
    DecimalReads(j);
    PaddedReads(Decimal(i), 4);
    PaddedReads(Decimal(j), 4);
    var n := |"sample-"|;
    assert ("sample-" + Padded(Decimal(i), 4))[n..] == Padded(Decimal(i), 4);
    assert ("sample-" + Padded(Decimal(j), 4))[n..] == Padded(Decimal(j), 4);
  }

  /** An item names an id directly, even an empty one, or by a reference that is not empty. */
  ghost predicate ItemNames(item: EvidenceItem, id: string) {
    item == Id(id) || (item == Reference(Some(id)) && id != "")
  }

  /** Which ids the evidence names. */
  lemma EvidenceExactly(e: Evidence, id: string)
    ensures id in RawEvidenceIds(e) <==>
              || (e == One(id) && id != "")
              || (e.Many? && exists i :: 0 <= i < |e.items| && ItemNames(e.items[i], id))
  {
    if e.Many? {
      ItemsExactly(e.items, id);
    }
  }

  lemma {:induction false} ItemsExactly(items: seq<EvidenceItem>, id: string)
    ensures id in ItemIds(items) <==> exists i :: 0 <= i < |items| && ItemNames(items[i], id)
  {
    if items != [] {
      var before, last := items[..|items| - 1], items[|items| - 1];
      ItemsExactly(before, id);
      assert ItemId(last) == Some(id) <==> ItemNames(last, id);
      assert items[|items| - 1] == last && forall i :: 0 <= i < |before| ==> items[i] == before[i];
    }
  }

  /** The id of an evidence item, qualified by the sample. */
  ghost predicate NamedBy(sid: string, e: Evidence, id: string) {
    exists i :: 0 <= i < |RawEvidenceIds(e)| && id == sid + "::" + RawEvidenceIds(e)[i]
  }

  /** What one question becomes: known evidence of its own sample, its own category, nothing forbidden. */
  ghost predicate QueryFor(query: EvidenceQuery, sid: string, known: seq<string>, q: Question, index: nat) {
    && query.id == QueryIdAt(sid, index) && query.namespace == "locomo:" + sid && query.category == q.category
    && query.forbidden == []
    && (forall id :: id in query.expected <==> id in known && NamedBy(sid, q.evidence, id))
  }

  lemma QuestionQueryFor(sid: string, known: seq<string>, q: Question, index: nat)
    ensures QueryFor(QuestionQuery(sid, known, q, index), sid, known, q, index)
  {
    var raw := RawEvidenceIds(q.evidence);
    var all := Map(QualifiedId(sid), raw);
    forall id
      ensures id in KnownEvidence(sid, known, q.evidence) <==> id in known && NamedBy(sid, q.evidence, id)
    {
      FilterIn(KnownTo(known), all, id);
      if i :| 0 <= i < |raw| && id == sid + "::" + raw[i] {
        assert all[i] == id;
      }
    }
  }

  /** A question with a text, and with known evidence unless answerless ones are wanted. */
  ghost predicate Asks(sid: string, known: seq<string>, q: Question, answerless: bool) {
    q.text != "" && (answerless || exists id :: id in known && NamedBy(sid, q.evidence, id))
  }

  lemma UsableExactly(sid: string, known: seq<string>, q: Question, answerless: bool)
    ensures Usable(sid, known, q, answerless) <==> Asks(sid, known, q, answerless)
  {
    var ids := QuestionQuery(sid, known, q, 0).expected;
    QuestionQueryFor(sid, known, q, 0);
    hide NamedBy;
    assert ids != [] ==> ids[0] in ids;
  }

  ghost function AskingAt(sid: string, known: seq<string>, questions: seq<Question>, answerless: bool): int -> bool {
    i => 0 <= i < |questions| && Asks(sid, known, questions[i], answerless)
  }

  lemma QueriesStep(sid: string, known: seq<string>, questions: seq<Question>, answerless: bool, n: nat)
    requires n < |questions|
    ensures var before := SampleQueries(sid, known, questions[..n], answerless);
            SampleQueries(sid, known, questions[..n + 1], answerless) == before +
              if Asks(sid, known, questions[n],
                  answerless) then [QuestionQuery(sid, known, questions[n], n + 1)] else []
  {
    TakeTake(questions, n);
    UsableExactly(sid, known, questions[n], answerless);
  }

  /** The queries are those of the questions at these positions, each numbered by its own. */
  ghost predicate QueriesAt(queries: seq<EvidenceQuery>, sid: string, known: seq<string>, questions: seq<Question>,
        at: seq<nat>) {
    && |queries| == |at|
    && forall m :: 0 <= m < |at| ==>
         at[m] < |questions| && QueryFor(queries[m], sid, known, questions[at[m]], at[m] + 1)
  }

  lemma QueriesAtSnoc(queries: seq<EvidenceQuery>, sid: string, known: seq<string>, questions: seq<Question>,
        at: seq<nat>, n: nat)
    requires QueriesAt(queries, sid, known, questions, at) && n < |questions|
    ensures QueriesAt(queries + [QuestionQuery(sid, known, questions[n], n + 1)], sid, known, questions, at + [n])
  {
    QuestionQueryFor(sid, known, questions[n], n + 1);
    hide QueryFor;
    hide QuestionQuery;
  }

  lemma NextQuery(sid: string, known: seq<string>, questions: seq<Question>, answerless: bool, n: nat, before: seq<nat>)
    returns (at: seq<nat>)
    requires n < |questions| && Selects(before, n, AskingAt(sid, known, questions, answerless))
    requires QueriesAt(SampleQueries(sid, known, questions[..n], answerless), sid, known, questions, before)
    ensures Selects(at, n + 1, AskingAt(sid, known, questions, answerless))
    ensures QueriesAt(SampleQueries(sid, known, questions[..n + 1], answerless), sid, known, questions, at)
  {
    at := SelectsStep(before, n, AskingAt(sid, known, questions, answerless));
    QueriesStep(sid, known, questions, answerless, n);
    QueriesAtSnoc(SampleQueries(sid, known, questions[..n], answerless), sid, known, questions, before, n);
    assert at == before + if Asks(sid, known, questions[n], answerless) then [n] else [];
    hide Selects;
    hide QueriesAt;
    hide Asks;
    hide SampleQueries;
    hide QuestionQuery;
    assert !Asks(sid, known, questions[n], answerless) ==> before + [] == before;
  }

  /** The queries come from the questions that ask, at increasing positions. */
  lemma {:induction false} QueriesByPosition(sid: string, known: seq<string>, questions: seq<Question>,
        answerless: bool, n: nat) returns (at: seq<nat>)
    requires n <= |questions|
    ensures Selects(at, n, AskingAt(sid, known, questions, answerless))
    ensures QueriesAt(SampleQueries(sid, known, questions[..n], answerless), sid, known, questions, at)
    decreases n
  {
    at := [];
    if n > 0 {
      hide *;
      var before := QueriesByPosition(sid, known, questions, answerless, n - 1);
      at := NextQuery(sid, known, questions, answerless, n - 1, before);
    }
  }

  lemma QueryNumbers(sid: string, known: seq<string>, questions: seq<Question>, answerless: bool)
    returns (numbers: seq<nat>)
    ensures var queries := SampleQueries(sid, known, questions, answerless);
            && |queries| == |numbers|
            && (forall m :: 0 <= m < |numbers| ==> queries[m].id == QueryIdAt(sid, numbers[m]))
            && (forall l, m :: 0 <= l < m < |numbers| ==> numbers[l] < numbers[m])
  {
    var at := QueriesByPosition(sid, known, questions, answerless, |questions|);
    TakeAll(questions);
    hide NamedBy;
    hide QueryIdAt;
    hide SampleQueries;
    numbers := seq(|at|, m requires 0 <= m < |at| => at[m] + 1);
  }

  /** No two queries of a sample share an id. */
  lemma SampleQueryIdsDistinct(sid: string, known: seq<string>, questions: seq<Question>, answerless: bool)
    ensures var queries := SampleQueries(sid, known, questions, answerless);
            forall i, j :: 0 <= i < j < |queries| ==> queries[i].id != queries[j].id
  {
    var numbers := QueryNumbers(sid, known, questions, answerless);
    hide SampleQueries;
    hide QueryIdAt;
    var queries := SampleQueries(sid, known, questions, answerless);
    forall i, j | 0 <= i < j < |queries| ensures queries[i].id != queries[j].id {
      QueryIdsApart(sid, numbers[i], numbers[j]);
    }
  }

  // ----- The whole load

  predicate Loadable(sample: Sample) {
    sample.conversation.Some? && !sample.conversation.value.Unsupported?
  }

  function MemoriesOfSample(sample: Sample, index: nat): seq<LongMemory> {
    if sample.conversation.Some? then ConversationMemories(SampleId(sample, index), sample.conversation.value) else []
  }

  function QueriesOfSample(sample: Sample, index: nat, answerless: bool): seq<EvidenceQuery> {
    SampleQueries(SampleId(sample, index), Map(MemoryId, MemoriesOfSample(sample, index)), sample.questions, answerless)
  }

  function AllMemories(samples: seq<Sample>): seq<LongMemory> {
    if samples == [] then []
    else AllMemories(samples[..|samples| - 1]) + MemoriesOfSample(samples[|samples| - 1], |samples|)
  }

  function AllQueries(samples: seq<Sample>, answerless: bool): seq<EvidenceQuery> {
    if samples == [] then []
    else
      var before, last := samples[..|samples| - 1], samples[|samples| - 1];
      AllQueries(before, answerless) + QueriesOfSample(last, |samples|, answerless)
  }

  /** At most `limit` of the first queries; no limit keeps them all. */
  function Limited(queries: seq<EvidenceQuery>, limit: Option<int>): seq<EvidenceQuery> {
    if limit.None? || limit.value >= |queries| then queries
    else if limit.value <= 0 then []
    else queries[..limit.value]
  }

  function LimitedSamples(samples: seq<Sample>, limit: Option<int>): seq<Sample> {
    if limit.None? then samples else Slice(samples, limit.value)
  }

  /** Once the limit is reached, later queries are not wanted. */
  lemma LimitReached(queries: seq<EvidenceQuery>, more: seq<EvidenceQuery>, limit: Option<int>)
    requires limit.Some? && |Limited(queries, limit)| >= limit.value
    ensures Limited(queries + more, limit) == Limited(queries, limit)
  {
  }

  lemma {:induction false} SampleQueriesGrow(sid: string, known: seq<string>, questions: seq<Question>, n: nat,
        answerless: bool)
    requires n <= |questions|
    ensures SampleQueries(sid, known, questions[..n], answerless) <= SampleQueries(sid, known, questions, answerless)
    decreases |questions|
  {
    if n < |questions| {
      var before := questions[..|questions| - 1];
      SampleQueriesGrow(sid, known, before, n, answerless);
      assert before[..n] == questions[..n];
    } else {
      assert questions[..n] == questions;
    }
  }

  /** One question: the query it becomes, unless it is unusable. */
  method ReadQuestion(sid: string, known: seq<string>, q: Question, index: nat, answerless: bool)
    returns (r: seq<EvidenceQuery>)
    ensures r == if Usable(sid, known, q, answerless) then [QuestionQuery(sid, known, q, index)] else []
  {
    if q.text == "" {
      return [];
    }
    var raw := EvidenceIds(q.evidence);
    var evidence := Filter(KnownTo(known), Map(QualifiedId(sid), raw));
    if evidence == [] && !answerless {
      return [];
    }
    r := [EvidenceQuery(sid + "::qa_" + Padded(Decimal(index), 4), Namespace(sid), evidence, [], q.category)];
  }

  lemma SampleQueriesStep(sid: string, known: seq<string>, questions: seq<Question>, n: nat, answerless: bool)
    requires n < |questions|
    ensures SampleQueries(sid, known, questions[..n + 1], answerless)
         == SampleQueries(sid, known, questions[..n], answerless)
            + if Usable(sid, known, questions[n], answerless)
              then [QuestionQuery(sid, known, questions[n], n + 1)] else []
  {
    TakeTake(questions, n);
  }

  lemma LimitExtends(queries: seq<EvidenceQuery>, more: seq<EvidenceQuery>, limit: Option<int>)
    requires limit.None? || |Limited(queries, limit)| < limit.value
    requires |more| <= 1
    ensures Limited(queries + more, limit) == Limited(queries, limit) + more
  {
  }

  /** Stopping at the limit loses nothing. */
  lemma LimitStops(all: seq<EvidenceQuery>, sid: string, known: seq<string>, questions: seq<Question>, n: nat,
                   answerless: bool, limit: Option<int>)
    requires n <= |questions| && limit.Some?
    requires |Limited(all + SampleQueries(sid, known, questions[..n], answerless), limit)| >= limit.value
    ensures Limited(all + SampleQueries(sid, known, questions, answerless), limit)
         == Limited(all + SampleQueries(sid, known, questions[..n], answerless), limit)
  {
    SampleQueriesGrow(sid, known, questions, n, answerless);
    var before, whole := SampleQueries(sid, known, questions[..n], answerless),
        SampleQueries(sid, known, questions, answerless);
    LimitReached(all + before, whole[|before|..], limit);
    assert all + before + whole[|before|..] == all + whole;
  }

  /** The question loop of one sample: it extends `queries`, the limited form of `all`, by the limited
      form of the sample's queries, and may stop early only when the limit is reached. */
  method CollectQueries(sid: string, known: seq<string>, questions: seq<Question>, answerless: bool,
                        limit: Option<int>, queries: seq<EvidenceQuery>, ghost all: seq<EvidenceQuery>)
    returns (r: seq<EvidenceQuery>)
    requires queries == Limited(all, limit)
    ensures r == Limited(all + SampleQueries(sid, known, questions, answerless), limit)
  {
    r := queries;
    assert all + [] == all;
    for n := 0 to |questions|
      invariant r == Limited(all + SampleQueries(sid, known, questions[..n], answerless), limit)
    {
      if limit.Some? && |r| >= limit.value {
        LimitStops(all, sid, known, questions, n, answerless, limit);
        return;
      }
      var more := ReadQuestion(sid, known, questions[n], n + 1, answerless);
      ghost var before := SampleQueries(sid, known, questions[..n], answerless);
      SampleQueriesStep(sid, known, questions, n, answerless);
      LimitExtends(all + before, more, limit);
      assert all + before + more == all + (before + more);
      r := r + more;
    }
    TakeAll(questions);
  }

  /** The memories of one sample, or why it cannot be read. */
  method LoadSample(sample: Sample, index: nat) returns (r: Result<seq<LongMemory>, LoadError>)
    ensures r.Ok? <==> Loadable(sample)
    ensures r.Ok? ==> r.value == MemoriesOfSample(sample, index)
  {
    if sample.conversation.None? {
      return Err(MissingConversation);
    }
    r := IterTurns(SampleId(sample, index), sample.conversation.value);
  }

  /** The queries of one sample, whose memories have been loaded. */
  method ExtendQueries(sample: Sample, index: nat, memories: seq<LongMemory>, answerless: bool,
                       limit: Option<int>, queries: seq<EvidenceQuery>, ghost all: seq<EvidenceQuery>)
    returns (r: seq<EvidenceQuery>)
    requires queries == Limited(all, limit) && memories == MemoriesOfSample(sample, index)
    ensures r == Limited(all + QueriesOfSample(sample, index, answerless), limit)
  {
    r := CollectQueries(SampleId(sample, index), Map(MemoryId, memories), sample.questions, answerless, limit, queries,
        all);
  }

  lemma LoadStep(samples: seq<Sample>, n: nat, answerless: bool)
    requires n < |samples|
    ensures AllMemories(samples[..n + 1]) == AllMemories(samples[..n]) + MemoriesOfSample(samples[n], n + 1)
    ensures AllQueries(samples[..n + 1], answerless)
         == AllQueries(samples[..n], answerless) + QueriesOfSample(samples[n], n + 1, answerless)
  {
    TakeTake(samples, n);
  }

  ghost predicate AllLoadable(samples: seq<Sample>) {
    forall i :: 0 <= i < |samples| ==> Loadable(samples[i])
  }

  lemma LoadableStep(samples: seq<Sample>, n: nat)
    requires n < |samples|
    ensures AllLoadable(samples[..n + 1]) <==> AllLoadable(samples[..n]) && Loadable(samples[n])
    ensures AllLoadable(samples) ==> Loadable(samples[n])
  {
  }

  /** One turn of the sample loop. */
  method LoadNext(samples: seq<Sample>, n: nat, memories: seq<LongMemory>, queries: seq<EvidenceQuery>,
                  limitQueries: Option<int>, answerless: bool)
    returns (r: Result<Dataset, LoadError>)
    requires n < |samples| && memories == AllMemories(samples[..n])
    requires queries == Limited(AllQueries(samples[..n], answerless), limitQueries)
    ensures r.Ok? <==> Loadable(samples[n])
    ensures r.Ok? ==> r.value == Dataset(AllMemories(samples[..n + 1]),
                                         Limited(AllQueries(samples[..n + 1], answerless), limitQueries))
  {
    var loaded := LoadSample(samples[n], n + 1);
    if loaded.Err? {
      return Err(loaded.error);
    }
    LoadStep(samples, n, answerless);
    var extended := ExtendQueries(samples[n], n + 1, loaded.value, answerless,
                                  limitQueries, queries, AllQueries(samples[..n], answerless));
    r := Ok(Dataset(memories + loaded.value, extended));
  }

  method LoadSamples(samples: seq<Sample>, limitQueries: Option<int>, answerless: bool)
    returns (r: Result<Dataset, LoadError>)
    ensures r.Ok? <==> AllLoadable(samples)
    ensures r.Ok? ==> r.value == Dataset(AllMemories(samples), Limited(AllQueries(samples, answerless), limitQueries))
  {
    var memories: seq<LongMemory>, queries: seq<EvidenceQuery> := [], [];
    for n := 0 to |samples|
      invariant AllLoadable(samples[..n])
      invariant memories == AllMemories(samples[..n])
      invariant queries == Limited(AllQueries(samples[..n], answerless), limitQueries)
    {
      var loaded := LoadNext(samples, n, memories, queries, limitQueries, answerless);
      LoadableStep(samples, n);
      if loaded.Err? {
        return Err(loaded.error);
      }
      memories, queries := loaded.value.memories, loaded.value.queries;
    }
    TakeAll(samples);
    r := Ok(Dataset(memories, queries));
  }

  /** `load_locomo_dataset`: memories are those of the unlimited load of the limited samples, queries the
      first ones up to the limit; a sample without a usable conversation fails the load. */
  method LoadDataset(raw: seq<Sample>, limitSamples: Option<int>, limitQueries: Option<int>, answerless: bool)
    returns (r: Result<Dataset, LoadError>)
    ensures r.Ok? <==> AllLoadable(LimitedSamples(raw, limitSamples))
    ensures r.Ok? ==> r.value == Dataset(AllMemories(LimitedSamples(raw, limitSamples)),
                                         Limited(AllQueries(LimitedSamples(raw, limitSamples), answerless),
                                             limitQueries))
  {
    r := LoadSamples(LimitedSamples(raw, limitSamples), limitQueries, answerless);
  }

  // ----- What limits and evidence mean

  lemma {:induction false} LoadOfPrefix(samples: seq<Sample>, n: nat, answerless: bool)
    requires n <= |samples|
    ensures AllMemories(samples[..n]) <= AllMemories(samples)
    ensures AllQueries(samples[..n], answerless) <= AllQueries(samples, answerless)
    decreases |samples|
  {
    if n < |samples| {
      var before := samples[..|samples| - 1];
      LoadOfPrefix(before, n, answerless);
      assert before[..n] == samples[..n];
    } else {
      assert samples[..n] == samples;
    }
  }

  /** A sample limit yields prefixes of both unlimited lists. */
  lemma SampleLimitIsPrefix(raw: seq<Sample>, limit: Option<int>, answerless: bool)
    ensures AllMemories(LimitedSamples(raw, limit)) <= AllMemories(raw)
    ensures AllQueries(LimitedSamples(raw, limit), answerless) <= AllQueries(raw, answerless)
  {
    if limit.Some? {
      var n := |Slice(raw, limit.value)|;
      assert Slice(raw, limit.value) == raw[..n];
      LoadOfPrefix(raw, n, answerless);
    }
  }

  lemma {:induction false} TurnsStayInNamespace(sid: string, key: string, date: Option<string>,
        names: map<string, string>, turns: seq<Turn>)
    ensures forall m :: m in TurnMemories(sid, key, date, names, turns) ==> m.namespace == Namespace(sid)
  {
    if turns != [] {
      TurnsStayInNamespace(sid, key, date, names, turns[..|turns| - 1]);
    }
  }

  lemma {:induction false} SessionsStayInNamespace(sid: string, names: map<string, string>, sessions: seq<Entry>)
    ensures forall m :: m in SessionMemories(sid, names, sessions) ==> m.namespace == Namespace(sid)
  {
    if sessions != [] {
      var last := sessions[|sessions| - 1];
      SessionsStayInNamespace(sid, names, sessions[..|sessions| - 1]);
      TurnsStayInNamespace(sid, last.key, last.date, names, last.turns);
    }
  }

  lemma MemoriesStayInNamespace(sample: Sample, index: nat)
    ensures forall m :: m in MemoriesOfSample(sample, index) ==> m.namespace == Namespace(SampleId(sample, index))
  {
    var sid := SampleId(sample, index);
    if sample.conversation.Some? {
      match sample.conversation.value
      case Turns(turns) => TurnsStayInNamespace(sid, "conversation", None, map[], turns);
      case Sessions(entries, names) => SessionsStayInNamespace(sid, names, SessionsInOrder(entries));
      case Unsupported =>
    }
  }

  /** The id belongs to a memory in the namespace. */
  ghost predicate Names(memories: seq<LongMemory>, namespace: string, id: string) {
    exists m :: m in memories && m.namespace == namespace && m.id == id
  }

  lemma {:induction false} EvidenceIsKnown(sid: string, known: seq<string>, questions: seq<Question>, answerless: bool,
        q: EvidenceQuery, id: string)
    requires q in SampleQueries(sid, known, questions, answerless) && id in q.expected
    ensures q.namespace == Namespace(sid) && id in known
  {
    var last := questions[|questions| - 1];
    if q in SampleQueries(sid, known, questions[..|questions| - 1], answerless) {
      EvidenceIsKnown(sid, known, questions[..|questions| - 1], answerless, q, id);
    } else {
      FilterIn(KnownTo(known), Map(QualifiedId(sid), RawEvidenceIds(last.evidence)), id);
    }
  }

  /** Every expected evidence id of every query names a loaded memory of the query's own namespace. */
  lemma {:induction false} EvidenceNamesOwnMemory(samples: seq<Sample>, answerless: bool, q: EvidenceQuery, id: string)
    requires q in AllQueries(samples, answerless) && id in q.expected
    ensures Names(AllMemories(samples), q.namespace, id)
  {
    var before, last := samples[..|samples| - 1], samples[|samples| - 1];
    if q in AllQueries(before, answerless) {
      EvidenceNamesOwnMemory(before, answerless, q, id);
      var m :| m in AllMemories(before) && m.namespace == q.namespace && m.id == id;
      assert m in AllMemories(samples);
    } else {
      var memories := MemoriesOfSample(last, |samples|);
      var known := Map(MemoryId, memories);
      EvidenceIsKnown(SampleId(last, |samples|), known, last.questions, answerless, q, id);
      var i :| 0 <= i < |known| && known[i] == id;
      MemoriesStayInNamespace(last, |samples|);
      assert memories[i] in AllMemories(samples);
    }
  }

  /** Unless answerless questions are asked for, every query has evidence to find. */
  lemma {:induction false} QueriesHaveEvidence(sid: string, known: seq<string>, questions: seq<Question>)
    ensures forall q :: q in SampleQueries(sid, known, questions, false) ==> q.expected != []
  {
    if questions != [] {
      QueriesHaveEvidence(sid, known, questions[..|questions| - 1]);
    }
  }

  /** So does every query of the whole load. */
  lemma {:induction false} LoadedQueriesHaveEvidence(samples: seq<Sample>)
    ensures forall q :: q in AllQueries(samples, false) ==> q.expected != []
  {
    if samples != [] {
      var n := |samples| - 1;
      LoadedQueriesHaveEvidence(samples[..n]);
      QueriesHaveEvidence(SampleId(samples[n], n + 1), Map(MemoryId, MemoriesOfSample(samples[n], n + 1)),
          samples[n].questions);
    }
  }

  /** Sessions come out in order of their numbers, and none is lost. */
  lemma SessionsSorted(entries: seq<Entry>)
    ensures var s := SessionsInOrder(entries);
            && (forall i,
                j :: 0 <= i < j < |s| ==>
                    s[i].number.Some? && s[j].number.Some? && s[i].number.value <= s[j].number.value)
            && multiset(s) == multiset(Filter(IsSession(), entries))
  {
    SortCorrect(EarlierSession, Filter(IsSession(), entries));
    var s := SessionsInOrder(entries);
    forall i | 0 <= i < |s| ensures s[i].number.Some? {
      SortIn(EarlierSession, Filter(IsSession(), entries), s[i]);
      FilterIn(IsSession(), entries, s[i]);
    }
  }
}
