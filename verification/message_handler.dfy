/** The inbound-message pipeline of src/handlers/messageHandler.ts:
    `setupMessageHandler`'s batch filter and loop and `handleMessage`'s
    extract, classify and branch. The store's two tables are threaded through
    a batch as values; every other outside answer (a store failure, the
    classifier's reply, a failed send, the insertion time) is a parameter,
    and what the handler does is a trace of effects. */
module MessageHandler {
  import opened Outcomes
  import opened JsBuiltins
  import opened ChatApi
  import opened Classifier
  import opened History

  // ---------------------------------------------------------------------------
  // Inbound messages
  // ---------------------------------------------------------------------------

  /** The parts of a message key the handler reads. A `fromMe` that is null
      or absent is `false`. */
  datatype MessageKey = MessageKey(remoteJid: Option<string>, fromMe: bool, id: Option<string>)

  datatype ExtendedText = ExtendedText(text: Option<string>)

  /** The message content: a plain conversation text or an extended text message. */
  datatype MessageContent = MessageContent(conversation: Option<string>, extendedTextMessage: Option<ExtendedText>)

  /** A message as delivered in a `messages.upsert` batch; `message` is absent
      for protocol and stub messages. */
  datatype WaMessage = WaMessage(key: MessageKey, message: Option<MessageContent>)

  datatype UpsertKind = Notify | Append

  /** One `messages.upsert` event. */
  datatype Upsert = Upsert(messages: seq<WaMessage>, kind: UpsertKind)

  /** The configuration the handler reads: the AI section and the jid that
      receives alerts. */
  datatype HandlerConfig = HandlerConfig(ai: AiConfig, recipientJid: string)

  // ---------------------------------------------------------------------------
  // Store tables and effects
  // ---------------------------------------------------------------------------

  /** A row of the `alerts` table; `risk` is its `label` column (`label` is a
      Dafny keyword), stored as the code spells it. */
  datatype AlertRow = AlertRow(from: string, messageId: Option<string>, risk: string, explanation: string, text: string)

  /** The two tables the handler writes. */
  datatype Tables = Tables(messages: seq<Row>, alerts: seq<AlertRow>)

  /** The two error logs of the handler. */
  datatype LogEntry =
    | SaveFailed(error: StoreError)
    | HandlingFailed(messageId: Option<string>, from: Option<string>)

  /** What the handler does, in order. */
  datatype Effect =
    | LoadHistory(chat: string, limit: nat)
    | Classify(texts: seq<string>)
    | InsertAlert(alert: AlertRow)
    | SendText(to: string, text: string)
    | InsertMessage(row: Row)
    | LogError(entry: LogEntry)

  /** The handler's effects on one message, with the tables afterwards. */
  datatype Step = Step(tables: Tables, effects: seq<Effect>)

  /** The outside answers met while handling one message: the history
      query's error, the classifier service's reply, whether the alert row
      was stored, whether sending the alert threw, the `messages` insert's
      error, and the insertion time of a stored row. */
  datatype Outside = Outside(
    historyFailure: Option<StoreError>,
    reply: ServiceReply,
    alertStored: bool,
    sendFails: bool,
    saveError: Option<StoreError>,
    now: int)

  /** How many stored texts the handler loads as history. */
  const HistoryLimit: nat := 10

  // ---------------------------------------------------------------------------
  // Extraction
  // ---------------------------------------------------------------------------

  /** `extendedTextMessage?.text`, with an absent text read as `''`. */
  function ExtendedTextOf(c: MessageContent): string {
    match c.extendedTextMessage
    case Some(ExtendedText(Some(t))) => t
    case _ => ""
  }

  /** `conversation || extendedTextMessage?.text || ''`. */
  function TextContent(m: WaMessage): (t: string)
    ensures t != "" <==>
              m.message.Some? && (Truthy(m.message.value.conversation) || ExtendedTextOf(m.message.value) != "")
    ensures m.message.Some? && Truthy(m.message.value.conversation) ==> t == m.message.value.conversation.value
    ensures m.message.Some? && !Truthy(m.message.value.conversation) ==> t == ExtendedTextOf(m.message.value)
  {
    match m.message
    case None => ""
    case Some(c) =>
      if Truthy(c.conversation) then c.conversation.value else ExtendedTextOf(c)
  }

  /** The chat and text of a message the handler acts on: both must be
      non-empty. */
  datatype Inbound = Inbound(chat: string, text: string)

  function Received(m: WaMessage): (r: Option<Inbound>)
    ensures r.Some? <==> Truthy(m.key.remoteJid) && TextContent(m) != ""
    ensures r.Some? ==> r.value.chat == m.key.remoteJid.value && r.value.text == TextContent(m)
  {
    match m.key.remoteJid
    case Some(chat) =>
      if chat != "" && TextContent(m) != "" then Some(Inbound(chat, TextContent(m))) else None
    case None => None
  }

  // ---------------------------------------------------------------------------
  // Alerts
  // ---------------------------------------------------------------------------

  /** The alert's opening: the warning sign emoji (U+26A0 with variation
      selector U+FE0F), then the start of the bold title. */
  const AlertHeader: string := "\U{26A0}\U{FE0F} *Alerta de "

  const AlertQuote: string := "\n\nMensaje:\n\""

  /** The notification text: the label in the bold title, the explanation
      on the next line, and the message quoted after a blank line. */
  function AlertText(risk: string, explanation: string, text: string): string {
    AlertHeader + risk + "*\n" + explanation + AlertQuote + text + "\""
  }

  /** The label, the explanation and the quoted text can be read back from
      fixed places of the notification. */
  lemma AlertTextShowsParts(risk: string, explanation: string, text: string)
    ensures var s := AlertText(risk, explanation, text);
      var k := |AlertHeader| + |risk| + 2;
      && |s| == k + |explanation| + |AlertQuote| + |text| + 1
      && s[..|AlertHeader|] == AlertHeader
      && s[|AlertHeader|..|AlertHeader| + |risk|] == risk
      && s[k..k + |explanation|] == explanation
      && s[|s| - 1 - |text|..|s| - 1] == text
      && s[|s| - 1] == '"'
  {
    var s := AlertText(risk, explanation, text);
    var k := |AlertHeader| + |risk| + 2;
    assert s == (AlertHeader + risk + "*\n") + explanation + (AlertQuote + text + "\"");
    assert s[|s| - 1 - |text|..|s| - 1] == text;
  }

  // ---------------------------------------------------------------------------
  // handleMessage
  // ---------------------------------------------------------------------------

  /** The error log of the catch block, with the key's id and chat. */
  function Caught(m: WaMessage): Effect {
    LogError(HandlingFailed(m.key.id, m.key.remoteJid))
  }

  /** The alert row for a risky message: chat, message id, label as the code
      spells it, explanation and text. */
  function AlertFor(m: WaMessage, inb: Inbound, c: Classification): AlertRow {
    AlertRow(inb.chat, m.key.id, LabelText(c.risk), c.explanation, inb.text)
  }

  /** The `messages` row for a message without risk. */
  function RowFor(m: WaMessage, inb: Inbound, now: int): Row {
    Row(inb.chat, inb.text, m.key.id, now)
  }

  /** The verdict the handler branches on, when it gets that far: the
      history loaded and the classifier answered. */
  function Verdict(cfg: HandlerConfig, tables: Tables, m: WaMessage, o: Outside): (v: Option<Classification>)
    ensures v.Some? <==> Received(m).Some? && o.historyFailure.None? && HasClient(cfg.ai) && o.reply.Replied?
    ensures v.Some? ==> v.value == DetectRisk(cfg.ai, Mensajes(tables, Received(m).value, o), o.reply).value
  {
    match Received(m)
    case None => None
    case Some(inb) =>
      match GetLastMessages(tables.messages, o.historyFailure, inb.chat, HistoryLimit)
      case Failure(_) => None
      case Success(history) =>
        match DetectRisk(cfg.ai, history + [inb.text], o.reply)
        case Answered(_, c) => Some(c)
        case _ => None
  }

  /** `chatHistory` once the current text is pushed: what the classifier gets. */
  function Mensajes(tables: Tables, inb: Inbound, o: Outside): seq<string> {
    match GetLastMessages(tables.messages, o.historyFailure, inb.chat, HistoryLimit)
    case Success(history) => history + [inb.text]
    case Failure(_) => [inb.text]
  }

  /** A write of the handler: an alert insert, a send or a message insert. */
  predicate IsWrite(e: Effect) {
    e.InsertAlert? || e.SendText? || e.InsertMessage?
  }

  /** The writes among the effects, in order. */
  function Writes(effects: seq<Effect>): (w: seq<Effect>)
    ensures |w| <= |effects|
    ensures forall e :: e in w <==> e in effects && IsWrite(e)
  {
    if |effects| == 0 then []
    else (if IsWrite(effects[0]) then [effects[0]] else []) + Writes(effects[1..])
  }

  lemma {:induction false} WritesAppend(a: seq<Effect>, b: seq<Effect>)
    ensures Writes(a + b) == Writes(a) + Writes(b)
    decreases |a|
  {
    if |a| > 0 {
      assert (a + b)[0] == a[0];
      assert (a + b)[1..] == a[1..] + b;
      WritesAppend(a[1..], b);
    } else {
      assert a + b == b;
    }
  }

  /** The writes the handler owes a verdict `c` for `inb`: for a risk, the
      alert row and then the notification to the configured recipient; for
      no risk, the `messages` row stamped with the insertion time. */
  function OwedWrites(cfg: HandlerConfig, m: WaMessage, inb: Inbound, c: Classification, now: int): (w: seq<Effect>)
    ensures |w| == (if c.risk != SinRiesgo then 2 else 1)
    ensures forall i :: 0 <= i < |w| ==> IsWrite(w[i])
    ensures c.risk != SinRiesgo ==> w[0].InsertAlert? && w[1].SendText? && w[1].to == cfg.recipientJid
    ensures c.risk != SinRiesgo ==>
              w[0].alert == AlertFor(m, inb, c) && w[1].text == AlertText(LabelText(c.risk), c.explanation, inb.text)
    ensures c.risk == SinRiesgo ==> w[0].InsertMessage? && w[0].row == RowFor(m, inb, now)
  {
    if c.risk != SinRiesgo then
      [InsertAlert(AlertFor(m, inb, c)), SendText(cfg.recipientJid, AlertText(LabelText(c.risk), c.explanation, inb.text))]
    else
      [InsertMessage(RowFor(m, inb, now))]
  }

  /** The effects end with the catch block's error log. */
  predicate EndsCaught(effects: seq<Effect>) {
    |effects| > 0 && effects[|effects| - 1].LogError? && effects[|effects| - 1].entry.HandlingFailed?
  }

  /** A list of writes is its own list of writes. */
  lemma {:induction false} WritesOfWrites(ws: seq<Effect>)
    requires forall i :: 0 <= i < |ws| ==> IsWrite(ws[i])
    ensures Writes(ws) == ws
    decreases |ws|
  {
    if |ws| > 0 {
      WritesOfWrites(ws[1..]);
      assert [ws[0]] + ws[1..] == ws;
    }
  }

  /** An error log appended after some effects adds no write. */
  lemma WritesWithLog(effects: seq<Effect>, entry: LogEntry)
    ensures Writes(effects + [LogError(entry)]) == Writes(effects)
  {
    assert Writes([LogError(entry)]) == [];
    WritesAppend(effects, [LogError(entry)]);
  }

  /** Loading the history and calling the classifier write nothing. */
  lemma WritesSkipReads(chat: string, texts: seq<string>, rest: seq<Effect>)
    ensures Writes([LoadHistory(chat, HistoryLimit), Classify(texts)] + rest) == Writes(rest)
  {
    var asked := [LoadHistory(chat, HistoryLimit), Classify(texts)];
    assert Writes(asked) == [] by {
      assert asked[1..] == [asked[1]];
      assert Writes([asked[1]]) == [];
    }
    WritesAppend(asked, rest);
  }

  /** What the handler does once it has a verdict `c` for `inb`: exactly the
      owed writes, in order. A failed send is caught and logged; a failed
      `messages` insert is only logged, and the row is then not stored;
      whether the alert row was stored is never looked at. */
  function Respond(cfg: HandlerConfig, tables: Tables, m: WaMessage, inb: Inbound, c: Classification, o: Outside): (r: Step)
    ensures Writes(r.effects) == OwedWrites(cfg, m, inb, c, o.now)
    ensures c.risk != SinRiesgo ==>
              && r.tables.messages == tables.messages
              && |r.tables.alerts| == |tables.alerts| + (if o.alertStored then 1 else 0)
              && tables.alerts <= r.tables.alerts
              && (o.alertStored ==> r.tables.alerts[|tables.alerts|] == AlertFor(m, inb, c))
              && (o.sendFails <==> EndsCaught(r.effects))
    ensures c.risk == SinRiesgo ==>
              && r.tables.alerts == tables.alerts
              && |r.tables.messages| == |tables.messages| + (if o.saveError.None? then 1 else 0)
              && tables.messages <= r.tables.messages
              && (o.saveError.None? ==> r.tables.messages[|tables.messages|] == RowFor(m, inb, o.now))
              && (o.saveError.Some? ==> r.effects[|r.effects| - 1] == LogError(SaveFailed(o.saveError.value)))
              && !EndsCaught(r.effects)
  {
    var owed := OwedWrites(cfg, m, inb, c, o.now);
    WritesOfWrites(owed);
    if c.risk != SinRiesgo then
      var alerts := tables.alerts + (if o.alertStored then [owed[0].alert] else []);
      if o.sendFails then
        WritesWithLog(owed, HandlingFailed(m.key.id, m.key.remoteJid));
        Step(tables.(alerts := alerts), owed + [Caught(m)])
      else
        Step(tables.(alerts := alerts), owed)
    else
      match o.saveError
      case None => Step(tables.(messages := tables.messages + [owed[0].row]), owed)
      case Some(e) =>
        WritesWithLog(owed, SaveFailed(e));
        Step(tables, owed + [LogError(SaveFailed(e))])
  }

  /** `handleMessage(sock, message)`. A thrown error (from the history
      query, the classifier or the send) ends handling with one error log. */
  function HandleMessage(cfg: HandlerConfig, tables: Tables, m: WaMessage, o: Outside): (r: Step)
    ensures r.effects == [] <==> Received(m).None?
    ensures r.effects == [] ==> r.tables == tables
    ensures Received(m).Some? ==> r.effects[0] == LoadHistory(Received(m).value.chat, HistoryLimit)
    ensures tables.messages <= r.tables.messages && |r.tables.messages| <= |tables.messages| + 1
    ensures tables.alerts <= r.tables.alerts && |r.tables.alerts| <= |tables.alerts| + 1
  {
    match Received(m)
    case None => Step(tables, [])
    case Some(inb) =>
      var load := LoadHistory(inb.chat, HistoryLimit);
      match GetLastMessages(tables.messages, o.historyFailure, inb.chat, HistoryLimit)
      case Failure(_) => Step(tables, [load, Caught(m)])
      case Success(history) =>
        var mensajes := history + [inb.text];
        match DetectRisk(cfg.ai, mensajes, o.reply)
        case Answered(_, c) =>
          var r := Respond(cfg, tables, m, inb, c, o);
          Step(r.tables, [load, Classify(mensajes)] + r.effects)
        case _ => Step(tables, [load, Classify(mensajes), Caught(m)])
  }

  // ---------------------------------------------------------------------------
  // setupMessageHandler
  // ---------------------------------------------------------------------------

  /** A message the loop hands to `handleMessage`: it has content and was
      not sent by the bot itself. */
  predicate Qualifies(m: WaMessage) {
    m.message.Some? && !m.key.fromMe
  }

  /** What the loop does with one message of the batch. */
  function StepOne(cfg: HandlerConfig, tables: Tables, m: WaMessage, o: Outside): (r: Step)
    ensures Grows(tables, r.tables, 1)
    ensures !Qualifies(m) ==> r == Step(tables, [])
  {
    if Qualifies(m) then HandleMessage(cfg, tables, m, o) else Step(tables, [])
  }

  /** Each table only gains rows, at most `n` of them. */
  predicate Grows(before: Tables, after: Tables, n: nat) {
    && before.messages <= after.messages && |after.messages| <= |before.messages| + n
    && before.alerts <= after.alerts && |after.alerts| <= |before.alerts| + n
  }

  /** A `for … of` loop with `await` over a batch: `step` runs on each
      message in order, from the tables the previous one left, and each
      message meets its own outside answers `outs[i]`. */
  function RunBatch(step: (Tables, WaMessage, Outside) -> Step, tables: Tables, msgs: seq<WaMessage>, outs: seq<Outside>): Step
    requires |outs| == |msgs|
    decreases |msgs|
  {
    if |msgs| == 0 then Step(tables, [])
    else
      var first := step(tables, msgs[0], outs[0]);
      var rest := RunBatch(step, first.tables, msgs[1..], outs[1..]);
      Step(rest.tables, first.effects + rest.effects)
  }

  lemma {:induction false} RunBatchGrows(step: (Tables, WaMessage, Outside) -> Step, tables: Tables, msgs: seq<WaMessage>, outs: seq<Outside>)
    requires |outs| == |msgs|
    requires forall t, m, o :: Grows(t, step(t, m, o).tables, 1)
    ensures Grows(tables, RunBatch(step, tables, msgs, outs).tables, |msgs|)
    decreases |msgs|
  {
    if |msgs| > 0 {
      var first := step(tables, msgs[0], outs[0]);
      RunBatchGrows(step, first.tables, msgs[1..], outs[1..]);
      var last := RunBatch(step, first.tables, msgs[1..], outs[1..]).tables;
      assert tables.messages <= last.messages by {
        assert forall k :: 0 <= k < |tables.messages| ==> first.tables.messages[k] == tables.messages[k];
      }
      assert tables.alerts <= last.alerts by {
        assert forall k :: 0 <= k < |tables.alerts| ==> first.tables.alerts[k] == tables.alerts[k];
      }
    }
  }

  lemma {:induction false} RunBatchSkips(step: (Tables, WaMessage, Outside) -> Step, tables: Tables, msgs: seq<WaMessage>, outs: seq<Outside>)
    requires |outs| == |msgs|
    requires forall i :: 0 <= i < |msgs| ==> step(tables, msgs[i], outs[i]) == Step(tables, [])
    ensures RunBatch(step, tables, msgs, outs) == Step(tables, [])
    decreases |msgs|
  {
    if |msgs| > 0 {
      assert forall i :: 0 <= i < |msgs| - 1 ==> msgs[1..][i] == msgs[i + 1] && outs[1..][i] == outs[i + 1];
      RunBatchSkips(step, tables, msgs[1..], outs[1..]);
    }
  }

  /** Running a batch is running its first part, then its second part from
      the tables the first part left. */
  lemma {:induction false} RunBatchComposes(step: (Tables, WaMessage, Outside) -> Step, tables: Tables,
                                            xs: seq<WaMessage>, xo: seq<Outside>, ys: seq<WaMessage>, yo: seq<Outside>)
    requires |xo| == |xs| && |yo| == |ys|
    ensures var a := RunBatch(step, tables, xs, xo);
      var b := RunBatch(step, a.tables, ys, yo);
      RunBatch(step, tables, xs + ys, xo + yo) == Step(b.tables, a.effects + b.effects)
    decreases |xs|
  {
    if |xs| > 0 {
      assert (xs + ys)[1..] == xs[1..] + ys;
      assert (xo + yo)[1..] == xo[1..] + yo;
      var first := step(tables, xs[0], xo[0]);
      RunBatchComposes(step, first.tables, xs[1..], xo[1..], ys, yo);
      var a := RunBatch(step, first.tables, xs[1..], xo[1..]);
      var b := RunBatch(step, a.tables, ys, yo);
      assert first.effects + (a.effects + b.effects) == (first.effects + a.effects) + b.effects;
    } else {
      assert xs + ys == ys;
      assert xo + yo == yo;
    }
  }

  /** The handler's step for configuration `cfg`. */
  function HandlerStep(cfg: HandlerConfig): (Tables, WaMessage, Outside) -> Step {
    (t: Tables, m: WaMessage, o: Outside) => StepOne(cfg, t, m, o)
  }

  /** The loop of the `messages.upsert` listener over a batch: messages
      without content or sent by the bot itself are skipped, the others are
      handled one at a time in batch order. */
  function ProcessAll(cfg: HandlerConfig, tables: Tables, msgs: seq<WaMessage>, outs: seq<Outside>): (r: Step)
    requires |outs| == |msgs|
    ensures Grows(tables, r.tables, |msgs|)
    ensures (forall i :: 0 <= i < |msgs| ==> !Qualifies(msgs[i])) ==> r == Step(tables, [])
  {
    RunBatchGrows(HandlerStep(cfg), tables, msgs, outs);
    assert (forall i :: 0 <= i < |msgs| ==> !Qualifies(msgs[i])) ==> RunBatch(HandlerStep(cfg), tables, msgs, outs) == Step(tables, []) by {
      if forall i :: 0 <= i < |msgs| ==> !Qualifies(msgs[i]) {
        RunBatchSkips(HandlerStep(cfg), tables, msgs, outs);
      }
    }
    RunBatch(HandlerStep(cfg), tables, msgs, outs)
  }

  /** The `messages.upsert` listener: only `notify` batches are processed. */
  function HandleBatch(cfg: HandlerConfig, tables: Tables, batch: Upsert, outs: seq<Outside>): (r: Step)
    requires |outs| == |batch.messages|
    ensures batch.kind != Notify ==> r == Step(tables, [])
    ensures batch.kind == Notify ==> r == ProcessAll(cfg, tables, batch.messages, outs)
  {
    if batch.kind != Notify then Step(tables, [])
    else ProcessAll(cfg, tables, batch.messages, outs)
  }

  // ---------------------------------------------------------------------------
  // Properties of handleMessage
  // ---------------------------------------------------------------------------

  /** Once a verdict is reached, the handler has loaded the history and
      called the classifier, and what follows is `Respond`. */
  lemma VerdictLeadsToRespond(cfg: HandlerConfig, tables: Tables, m: WaMessage, o: Outside)
    requires Verdict(cfg, tables, m, o).Some?
    ensures var inb := Received(m).value;
      var r := Respond(cfg, tables, m, inb, Verdict(cfg, tables, m, o).value, o);
      HandleMessage(cfg, tables, m, o) == Step(r.tables, [LoadHistory(inb.chat, HistoryLimit), Classify(Mensajes(tables, inb, o))] + r.effects)
  {
  }

  /** The classifier gets the loaded history, oldest first, with the current
      text appended: at most eleven texts, the current one last, and the
      window it classifies is the last ten of them. */
  lemma ClassifierSeesCurrentTextLast(cfg: HandlerConfig, tables: Tables, m: WaMessage, o: Outside)
    requires Received(m).Some? && o.historyFailure.None?
    ensures var inb := Received(m).value;
      var texts := Mensajes(tables, inb, o);
      var history := GetLastMessages(tables.messages, None, inb.chat, HistoryLimit).value;
      && HandleMessage(cfg, tables, m, o).effects[1] == Classify(texts)
      && 1 <= |texts| <= HistoryLimit + 1
      && texts[..|texts| - 1] == history
      && texts[|texts| - 1] == inb.text
      && Window(texts) == texts[|texts| - Min(WindowSize, |texts|)..]
  {
    var inb := Received(m).value;
    var texts := Mensajes(tables, inb, o);
    var w := Window(texts);
    assert texts[|texts| - |w|..] == w;
  }

  /** Once a verdict is reached the handler performs exactly the owed
      writes: one alert row and one notification for a risk, one `messages`
      row otherwise, never both. */
  lemma VerdictWritesOwed(cfg: HandlerConfig, tables: Tables, m: WaMessage, o: Outside)
    requires Verdict(cfg, tables, m, o).Some?
    ensures Writes(HandleMessage(cfg, tables, m, o).effects) == OwedWrites(cfg, m, Received(m).value, Verdict(cfg, tables, m, o).value, o.now)
  {
    var inb := Received(m).value;
    var r := Respond(cfg, tables, m, inb, Verdict(cfg, tables, m, o).value, o);
    VerdictLeadsToRespond(cfg, tables, m, o);
    WritesSkipReads(inb.chat, Mensajes(tables, inb, o), r.effects);
  }

  /** `Respond` never looks at whether the alert row was stored. */
  lemma RespondIgnoresAlertStored(cfg: HandlerConfig, tables: Tables, m: WaMessage, inb: Inbound, c: Classification, o: Outside)
    ensures Respond(cfg, tables, m, inb, c, o).effects == Respond(cfg, tables, m, inb, c, o.(alertStored := !o.alertStored)).effects
  {
  }

  /** Whether the alert row was stored never changes what the handler does
      next: the notification is sent either way. */
  lemma AlertStoreResultIgnored(cfg: HandlerConfig, tables: Tables, m: WaMessage, o: Outside)
    ensures HandleMessage(cfg, tables, m, o).effects == HandleMessage(cfg, tables, m, o.(alertStored := !o.alertStored)).effects
  {
    var o' := o.(alertStored := !o.alertStored);
    if Verdict(cfg, tables, m, o).Some? {
      var inb := Received(m).value;
      assert Verdict(cfg, tables, m, o') == Verdict(cfg, tables, m, o);
      assert Mensajes(tables, inb, o') == Mensajes(tables, inb, o);
      VerdictLeadsToRespond(cfg, tables, m, o);
      VerdictLeadsToRespond(cfg, tables, m, o');
      RespondIgnoresAlertStored(cfg, tables, m, inb, Verdict(cfg, tables, m, o).value, o);
    }
  }

  /** A failed history query is caught: it is logged, last, and nothing is
      written and the classifier is not called. */
  lemma HistoryFailureIsCaught(cfg: HandlerConfig, tables: Tables, m: WaMessage, o: Outside)
    requires Received(m).Some? && o.historyFailure.Some?
    ensures HandleMessage(cfg, tables, m, o) == Step(tables, [LoadHistory(Received(m).value.chat, HistoryLimit), Caught(m)])
  {
  }

  /** A classifier that is not configured or whose service fails is caught:
      it is logged, last, and nothing is written. */
  lemma ClassifierFailureIsCaught(cfg: HandlerConfig, tables: Tables, m: WaMessage, o: Outside)
    requires Received(m).Some? && o.historyFailure.None?
    requires !HasClient(cfg.ai) || o.reply.ServiceFailed?
    ensures var inb := Received(m).value;
      HandleMessage(cfg, tables, m, o) == Step(tables, [LoadHistory(inb.chat, HistoryLimit), Classify(Mensajes(tables, inb, o)), Caught(m)])
  {
  }

  /** With a no-risk verdict and a successful insert, the message's row is
      appended to `messages`. */
  lemma SafeVerdictStoresRow(cfg: HandlerConfig, tables: Tables, m: WaMessage, o: Outside)
    requires Verdict(cfg, tables, m, o) == Some(NoRisk) && o.saveError.None?
    ensures HandleMessage(cfg, tables, m, o).tables.messages == tables.messages + [RowFor(m, Received(m).value, o.now)]
  {
    VerdictLeadsToRespond(cfg, tables, m, o);
  }

  /** A stored message is what the next history ends with: when its
      insertion time is later than every stored row of its chat, loading the
      chat's history right after returns its text last. */
  lemma StoredMessageIsNextHistory(cfg: HandlerConfig, tables: Tables, m: WaMessage, o: Outside)
    requires Verdict(cfg, tables, m, o) == Some(NoRisk) && o.saveError.None?
    requires forall y :: y in tables.messages && y.from == m.key.remoteJid.value ==> y.createdAt < o.now
    ensures var inb := Received(m).value;
      var next := GetLastMessages(HandleMessage(cfg, tables, m, o).tables.messages, None, inb.chat, HistoryLimit);
      next.Success? && |next.value| > 0 && next.value[|next.value| - 1] == inb.text
  {
    var inb := Received(m).value;
    var row := RowFor(m, inb, o.now);
    var table := tables.messages + [row];
    SafeVerdictStoresRow(cfg, tables, m, o);
    forall y | y in table && y.from == inb.chat && y != row
      ensures y.createdAt < row.createdAt
    {
      assert y in tables.messages;
    }
    NewestRowIsLast(table, inb.chat, HistoryLimit, row);
  }

  // ---------------------------------------------------------------------------
  // Properties of the batch loop
  // ---------------------------------------------------------------------------

  /** Handling a batch is handling its first part, then its second part from
      the tables the first part left: a failure inside one message never stops
      the messages after it. */
  lemma BatchComposes(cfg: HandlerConfig, tables: Tables, xs: seq<WaMessage>, xo: seq<Outside>, ys: seq<WaMessage>, yo: seq<Outside>)
    requires |xo| == |xs| && |yo| == |ys|
    ensures var a := ProcessAll(cfg, tables, xs, xo);
      var b := ProcessAll(cfg, a.tables, ys, yo);
      ProcessAll(cfg, tables, xs + ys, xo + yo) == Step(b.tables, a.effects + b.effects)
  {
    RunBatchComposes(HandlerStep(cfg), tables, xs, xo, ys, yo);
  }

  /** A message that does not qualify, or yields no inbound text, leaves no
      trace in the batch. */
  lemma {:induction false} SkippedMessageIsSilent(cfg: HandlerConfig, tables: Tables, m: WaMessage, o: Outside, ys: seq<WaMessage>, yo: seq<Outside>)
    requires |yo| == |ys|
    requires !Qualifies(m) || Received(m).None?
    ensures ProcessAll(cfg, tables, [m] + ys, [o] + yo) == ProcessAll(cfg, tables, ys, yo)
  {
    assert ([m] + ys)[1..] == ys;
    assert ([o] + yo)[1..] == yo;
  }

  /** Each qualifying message is handled in batch order: a one-message batch
      is that message's handling when it qualifies. */
  lemma SingleMessageBatch(cfg: HandlerConfig, tables: Tables, m: WaMessage, o: Outside)
    requires Qualifies(m)
    ensures HandleBatch(cfg, tables, Upsert([m], Notify), [o]) == HandleMessage(cfg, tables, m, o)
  {
    var r := HandleMessage(cfg, tables, m, o);
    assert HandlerStep(cfg)(tables, m, o) == r;
    assert [m][1..] == [] && [o][1..] == [];
    assert RunBatch(HandlerStep(cfg), r.tables, [], []) == Step(r.tables, []);
    assert r.effects + [] == r.effects;
  }
}
