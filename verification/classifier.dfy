/** `detectRisk` of src/ai/classifier.ts: the risk classifier. It keeps the
    last ten texts, joins them one per line, asks the judgment service with a
    system prompt and a user message, and reads a one-line Spanish verdict
    out of the reply: `DETECCIÓN GROOMING: …`, `DETECCIÓN ESTAFA: …` or
    `SIN RIESGO`. Anything it cannot read counts as no risk. */
module Classifier {
  import opened Outcomes
  import opened JsBuiltins
  import opened ChatApi
  import opened ClassifierPrompt

  // ---------------------------------------------------------------------------
  // Result
  // ---------------------------------------------------------------------------

  /** The three labels; `SinRiesgo` is the no-risk outcome. */
  datatype Label = Grooming | Estafa | SinRiesgo

  /** The label as the code spells it (and as it is stored and sent in alerts). */
  function LabelText(l: Label): string {
    match l
    case Grooming => "GROOMING"
    case Estafa => "ESTAFA"
    case SinRiesgo => "SIN RIESGO"
  }

  /** `{ label, explanation }`, with the label in `risk` (`label` is a Dafny keyword). The optional `score` of the declared return
      type is never produced, so it is not part of the model. */
  datatype Classification = Classification(risk: Label, explanation: string)

  const NoRisk: Classification := Classification(SinRiesgo, "")

  // ---------------------------------------------------------------------------
  // Window
  // ---------------------------------------------------------------------------

  /** How many of the most recent texts are classified. */
  const WindowSize: nat := 10

  /** `mensajes.slice(-10)`. */
  function Window(mensajes: seq<string>): (w: seq<string>)
    ensures |w| == Min(WindowSize, |mensajes|)
    ensures forall i :: 0 <= i < |w| ==> w[i] == mensajes[|mensajes| - |w| + i]
  {
    SliceLast(mensajes, WindowSize)
  }

  /** `texto_mensajes`: the window, one text per line. */
  function WindowText(mensajes: seq<string>): string {
    Join(Window(mensajes), "\n")
  }

  /** The window text is empty for no texts; otherwise it starts with the
      oldest text of the window and ends with the newest text given. */
  lemma WindowTextEnds(mensajes: seq<string>)
    ensures |mensajes| == 0 ==> WindowText(mensajes) == ""
    ensures |mensajes| > 0 ==>
              var t, oldest := WindowText(mensajes), mensajes[|mensajes| - Min(WindowSize, |mensajes|)];
              |oldest| <= |t| && t[..|oldest|] == oldest
    ensures |mensajes| > 0 ==>
              var t, newest := WindowText(mensajes), mensajes[|mensajes| - 1];
              |newest| <= |t| && t[|t| - |newest|..] == newest
  {
    var w := Window(mensajes);
    if |w| > 0 {
      JoinEndsWithLast(w, "\n");
    }
  }

  /** The text just classified is always the last line the service sees, and
      the window holds the last `min(10, n)` texts. */
  lemma WindowKeepsCurrentLast(history: seq<string>, current: string)
    ensures var w := Window(history + [current]);
      |w| == Min(WindowSize, |history| + 1) && w[|w| - 1] == current
    ensures var t := WindowText(history + [current]);
      |current| <= |t| && t[|t| - |current|..] == current
  {
    var w := Window(history + [current]);
    JoinEndsWithLast(w, "\n");
  }

  /** With at most ten texts of history, the window is the history plus the
      current text, minus the oldest history entry when there are exactly ten. */
  lemma WindowOfBoundedHistory(history: seq<string>, current: string)
    requires |history| <= WindowSize
    ensures Window(history + [current]) ==
      (if |history| == WindowSize then history[1..] else history) + [current]
  {
    var m := history + [current];
    if |history| == WindowSize {
      assert Window(m) == m[1..];
      assert m[1..] == history[1..] + [current];
    } else {
      assert Window(m) == m;
    }
  }

  /** When no text has a line break, the service's user message splits back
      into exactly the windowed texts. */
  lemma WindowTextSplitsBack(mensajes: seq<string>)
    requires |mensajes| > 0
    requires forall i :: 0 <= i < |mensajes| ==> '\n' !in mensajes[i]
    ensures Split(WindowText(mensajes), '\n') == Window(mensajes)
  {
    var w := Window(mensajes);
    assert forall i :: 0 <= i < |w| ==> '\n' !in w[i];
    assert "\n" == ['\n'];
    SplitJoin(w, '\n');
  }

  // ---------------------------------------------------------------------------
  // Request
  // ---------------------------------------------------------------------------

  /** `config.ai.systemPrompt || template.trim()`: the configured prompt is used
      as is (it is not trimmed) whenever it is non-empty. */
  function SystemPrompt(configured: string, texto: string): (p: string)
    ensures configured != "" ==> p == configured
    ensures configured == "" ==> Trimmed(p)
  {
    if configured != "" then configured else DefaultSystemPrompt(texto)
  }

  /** The completion request `detectRisk` sends for `mensajes`: the system
      message, then the window text as the user message. */
  function ClassifierRequest(cfg: AiConfig, mensajes: seq<string>): (req: ChatRequest)
    ensures req.model == ModelName
    ensures |req.messages| == 2
    ensures req.messages[0].role == System && req.messages[1].role == User
    ensures req.messages[0].content == SystemPrompt(cfg.systemPrompt, WindowText(mensajes))
    ensures req.messages[1].content == WindowText(mensajes)
  {
    var texto := WindowText(mensajes);
    ChatRequest(ModelName, [ChatMessage(System, SystemPrompt(cfg.systemPrompt, texto)), ChatMessage(User, texto)])
  }

  /** The configured prompt wins whenever it is non-empty, and is used as
      given; otherwise the window text sits verbatim between the built-in
      instructions and answer forms. */
  lemma SystemPromptChoice(configured: string, texto: string)
    ensures configured != "" ==> SystemPrompt(configured, texto) == configured
    ensures configured == "" ==>
              SystemPrompt(configured, texto) == PartText(Instructions) + texto + PartText(AnswerForms)
  {
    if configured == "" {
      DefaultSystemPromptEmbedsWindow(texto);
    }
  }

  // ---------------------------------------------------------------------------
  // Reply parsing: /DETECCIÓN (GROOMING|ESTAFA): (.+)/i, then the sentinel
  // ---------------------------------------------------------------------------

  const DetectionPrefix: string := "DETECCIÓN "
  const Separator: string := ": "
  const Sentinel: string := "SIN RIESGO"

  /** The character a case-insensitive, non-unicode regular expression
      compares (Canonicalize, section 22.2.2.7.3 of ECMAScript 2023): the
      character's upper case when that is a single character, except that a
      non-ASCII character never becomes an ASCII one. Written out for ASCII
      and Latin-1; every other character is left as is, which is exact for
      comparisons against the pattern's characters, all of which are Latin-1. */
  function Canonicalize(c: char): (r: char)
    ensures r == (if c as int >= 128 && UpperChar(c) as int < 128 then c else UpperChar(c))
  {
    if 'a' <= c <= 'z' then (c as int - 32) as char
    else if '\U{00E0}' <= c <= '\U{00FE}' && c != '\U{00F7}' then (c as int - 32) as char
    else if c == '\U{00FF}' then '\U{0178}'
    else if c == '\U{00B5}' then '\U{039C}'
    else c
  }

  /** `lit` occurs case-insensitively in `s` at index `i`. */
  predicate LiteralAt(s: string, i: nat, lit: string) {
    LiteralFrom(s, i, lit, 0)
  }

  /** The characters of `lit` from index `k` on occur case-insensitively in
      `s` at the same offsets from `i`. */
  predicate LiteralFrom(s: string, i: nat, lit: string, k: nat)
    decreases |lit| - k
  {
    k >= |lit| || (i + k < |s| && Canonicalize(s[i + k]) == Canonicalize(lit[k]) && LiteralFrom(s, i, lit, k + 1))
  }

  /** Where the `(.+)` group starts when alternative `l` is tried at `i`. */
  function CaptureStart(i: nat, l: Label): nat {
    i + |DetectionPrefix| + |LabelText(l)| + |Separator|
  }

  /** The pattern matches at `i` through alternative `l`: the prefix, the
      category word, `": "`, and at least one character of the same line. */
  predicate AlternativeAt(s: string, i: nat, l: Label) {
    && LiteralAt(s, i, DetectionPrefix)
    && LiteralAt(s, i + |DetectionPrefix|, LabelText(l))
    && LiteralAt(s, i + |DetectionPrefix| + |LabelText(l)|, Separator)
    && CaptureStart(i, l) < |s|
    && !IsLineTerminator(s[CaptureStart(i, l)])
  }

  /** A match: where it starts, which category word matched, and the bounds
      of the `(.+)` group. */
  datatype Hit = Hit(at: nat, category: Label, start: nat, end: nat)

  /** The end of the line that contains index `p`: how far a greedy `.+` reaches. */
  function LineEnd(s: string, p: nat): (e: nat)
    requires p <= |s|
    ensures p <= e <= |s|
    ensures forall j :: p <= j < e ==> !IsLineTerminator(s[j])
    ensures e == |s| || IsLineTerminator(s[e])
    decreases |s| - p
  {
    if p == |s| || IsLineTerminator(s[p]) then p else LineEnd(s, p + 1)
  }

  /** The regular expression tried at index `i`; the alternatives are tried in
      the order written. */
  function MatchAt(s: string, i: nat): (h: Option<Hit>)
    ensures h.None? <==> !AlternativeAt(s, i, Grooming) && !AlternativeAt(s, i, Estafa)
    ensures h.Some? ==>
              && h.value.at == i && h.value.category != SinRiesgo
              && AlternativeAt(s, i, h.value.category)
              && h.value.start == CaptureStart(i, h.value.category)
              && h.value.start < h.value.end <= |s|
              && (forall j :: h.value.start <= j < h.value.end ==> !IsLineTerminator(s[j]))
              && (h.value.end == |s| || IsLineTerminator(s[h.value.end]))
  {
    if AlternativeAt(s, i, Grooming) then
      Some(Hit(i, Grooming, CaptureStart(i, Grooming), LineEnd(s, CaptureStart(i, Grooming))))
    else if AlternativeAt(s, i, Estafa) then
      Some(Hit(i, Estafa, CaptureStart(i, Estafa), LineEnd(s, CaptureStart(i, Estafa))))
    else
      None
  }

  /** `s.match(regex)` from index `from` on: the leftmost match. */
  function FirstMatch(s: string, from: nat): (h: Option<Hit>)
    requires from <= |s|
    ensures h.Some? ==>
              && from <= h.value.at < |s|
              && MatchAt(s, h.value.at) == h
              && forall j :: from <= j < h.value.at ==> MatchAt(s, j).None?
    ensures h.None? ==> forall j :: from <= j < |s| ==> MatchAt(s, j).None?
    decreases |s| - from
  {
    if from == |s| then None
    else
      match MatchAt(s, from)
      case Some(hit) => Some(hit)
      case None => FirstMatch(s, from + 1)
  }

  /** The pattern matches somewhere in `s`. */
  ghost predicate HasDetection(s: string) {
    exists i :: 0 <= i < |s| && MatchAt(s, i).Some?
  }

  /** The `(.+)` group of a match, trimmed: `match[2].trim()`. */
  function Explanation(reply: string, h: Hit): (e: string)
    requires h.start <= h.end <= |reply|
    requires forall j :: h.start <= j < h.end ==> !IsLineTerminator(reply[j])
    ensures Trimmed(e)
    ensures forall k :: 0 <= k < |e| ==> !IsLineTerminator(e[k])
  {
    var line := reply[h.start..h.end];
    TrimIsInfix(line);
    Trim(line)
  }

  /** `reply.toUpperCase().includes('SIN RIESGO')`. */
  predicate MentionsSentinel(reply: string) {
    Includes(ToUpperCase(reply), Sentinel)
  }

  /** `SIN RIESGO` in any mix of upper and lower case is found by the
      sentinel test. */
  lemma SentinelInAnyCase(reply: string, i: nat)
    requires i + |Sentinel| <= |reply|
    requires forall k :: 0 <= k < |Sentinel| ==>
               reply[i + k] == Sentinel[k] || ('A' <= Sentinel[k] <= 'Z' && reply[i + k] as int == Sentinel[k] as int + 32)
    ensures MentionsSentinel(reply)
  {
    var upper := ToUpperCase(reply);
    assert upper[i..i + |Sentinel|] == Sentinel by {
      forall k | 0 <= k < |Sentinel|
        ensures upper[i + k] == Sentinel[k]
      {
        assert upper[i + k] == UpperChar(reply[i + k]);
      }
    }
    assert OccursAt(upper, Sentinel, i);
  }

  /** Reads the verdict out of the (already trimmed) reply. A detection match
      wins; otherwise the sentinel check and the fallback both give no risk. */
  function ParseReply(reply: string): (c: Classification)
    ensures c.risk != SinRiesgo <==> HasDetection(reply)
    ensures c.risk == SinRiesgo ==> c == NoRisk
    ensures Trimmed(c.explanation)
    ensures forall k :: 0 <= k < |c.explanation| ==> !IsLineTerminator(c.explanation[k])
  {
    match FirstMatch(reply, 0)
    case Some(h) => Classification(h.category, Explanation(reply, h))
    case None => if MentionsSentinel(reply) then NoRisk else NoRisk
  }

  /** When the pattern first matches at `i`, the label is that match's
      category and the explanation is the rest of that line, trimmed. */
  lemma ParseTakesLeftmostMatch(reply: string, i: nat)
    requires i < |reply| && MatchAt(reply, i).Some?
    requires forall j :: 0 <= j < i ==> MatchAt(reply, j).None?
    ensures var h := MatchAt(reply, i).value;
      ParseReply(reply) == Classification(h.category, Trim(reply[h.start..h.end]))
  {
    var f := FirstMatch(reply, 0);
    assert f.Some?;
    assert f.value.at == i;
  }

  /** The line the prompt asks for when a risk is found. */
  function DetectionLine(l: Label, explanation: string): string {
    DetectionPrefix + LabelText(l) + Separator + explanation
  }

  /** An explanation the round trip can carry: one non-empty line with no
      whitespace at either end. */
  predicate ReadableExplanation(e: string) {
    |e| > 0 && Trimmed(e) && forall k :: 0 <= k < |e| ==> !IsLineTerminator(e[k])
  }

  /** Every text matches itself, whatever the case of its letters. */
  lemma {:induction false} LiteralFromItself(s: string, i: nat, lit: string, k: nat)
    requires i + |lit| <= |s|
    requires s[i..i + |lit|] == lit
    ensures LiteralFrom(s, i, lit, k)
    decreases |lit| - k
  {
    if k < |lit| {
      assert s[i + k] == lit[k];
      LiteralFromItself(s, i, lit, k + 1);
    }
  }

  /** Where the explanation starts in a detection line. */
  function ExplanationStart(l: Label): nat {
    |DetectionPrefix| + |LabelText(l)| + |Separator|
  }

  /** A detection line has the prefix, the label word and the separator
      spelled out in front of the explanation. */
  lemma DetectionLineLayout(l: Label, e: string)
    ensures var s := DetectionLine(l, e);
      && |s| == ExplanationStart(l) + |e|
      && s[..|DetectionPrefix|] == DetectionPrefix
      && s[|DetectionPrefix|..|DetectionPrefix| + |LabelText(l)|] == LabelText(l)
      && s[|DetectionPrefix| + |LabelText(l)|..ExplanationStart(l)] == Separator
      && s[ExplanationStart(l)..] == e
  {
  }

  /** A detection line with a readable explanation is its own trim. */
  lemma DetectionLineTrimmed(l: Label, e: string)
    requires ReadableExplanation(e)
    ensures Trimmed(DetectionLine(l, e))
  {
    var s := DetectionLine(l, e);
    DetectionLineLayout(l, e);
    assert s[0] == DetectionPrefix[0];
    assert s[|s| - 1] == e[|e| - 1];
  }

  /** The requested alternative matches at the start of a detection line. */
  lemma DetectionLineAlternative(l: Label, e: string)
    requires l != SinRiesgo && |e| > 0 && !IsLineTerminator(e[0])
    ensures AlternativeAt(DetectionLine(l, e), 0, l)
  {
    var s := DetectionLine(l, e);
    var w := LabelText(l);
    DetectionLineLayout(l, e);
    LiteralFromItself(s, 0, DetectionPrefix, 0);
    LiteralFromItself(s, |DetectionPrefix|, w, 0);
    LiteralFromItself(s, |DetectionPrefix| + |w|, Separator, 0);
    assert s[CaptureStart(0, l)] == e[0];
  }

  /** The `GROOMING` alternative, tried first, does not match an `ESTAFA` line. */
  lemma EstafaLineIsNotGrooming(e: string)
    ensures !AlternativeAt(DetectionLine(Estafa, e), 0, Grooming)
  {
    var s := DetectionLine(Estafa, e);
    assert s[|DetectionPrefix|] == 'E';
  }

  /** A greedy `.+` over a single line runs to the end of the text. */
  lemma LineEndOfSingleLine(s: string, p: nat)
    requires p <= |s|
    requires forall j :: p <= j < |s| ==> !IsLineTerminator(s[j])
    ensures LineEnd(s, p) == |s|
  {
  }

  /** The match found in a detection line: at index 0, with the requested
      label, capturing the whole explanation. */
  lemma DetectionLineMatch(l: Label, e: string)
    requires l != SinRiesgo && ReadableExplanation(e)
    ensures MatchAt(DetectionLine(l, e), 0) == Some(Hit(0, l, ExplanationStart(l), |DetectionLine(l, e)|))
  {
    var s := DetectionLine(l, e);
    DetectionLineLayout(l, e);
    DetectionLineAlternative(l, e);
    if l == Estafa {
      EstafaLineIsNotGrooming(e);
    }
    forall j | ExplanationStart(l) <= j < |s|
      ensures !IsLineTerminator(s[j])
    {
      assert s[j] == e[j - ExplanationStart(l)];
    }
    LineEndOfSingleLine(s, ExplanationStart(l));
  }

  /** A reply whose match sits at its start and runs to its end, over an
      already trimmed capture, is read as that match's label and capture. */
  lemma ParseWholeLineMatch(s: string, l: Label, p: nat, e: string)
    requires MatchAt(s, 0) == Some(Hit(0, l, p, |s|))
    requires p <= |s| && s[p..] == e && Trimmed(e)
    ensures ParseReply(s) == Classification(l, e)
  {
    ParseTakesLeftmostMatch(s, 0);
    assert s[p..|s|] == e;
    TrimOfTrimmed(e);
  }

  /** A detection line is read back as exactly its label and explanation. */
  lemma ParseDetectionLine(l: Label, e: string)
    requires l != SinRiesgo && ReadableExplanation(e)
    ensures ParseReply(DetectionLine(l, e)) == Classification(l, e)
  {
    DetectionLineMatch(l, e);
    DetectionLineLayout(l, e);
    ParseWholeLineMatch(DetectionLine(l, e), l, ExplanationStart(l), e);
  }

  /** Round trip: a reply in the requested detection form, with any
      surrounding whitespace, is read back as exactly that label and
      explanation. */
  lemma DetectionLineRoundTrip(l: Label, e: string, pre: string, post: string)
    requires l != SinRiesgo && ReadableExplanation(e)
    requires AllWhitespace(pre) && AllWhitespace(post)
    ensures ParseReply(ReplyText(Some(pre + DetectionLine(l, e) + post))) == Classification(l, e)
  {
    DetectionLineTrimmed(l, e);
    TrimPadded(pre, DetectionLine(l, e), post);
    ParseDetectionLine(l, e);
  }

  // ---------------------------------------------------------------------------
  // detectRisk
  // ---------------------------------------------------------------------------

  /** `detectRisk(mensajes)` against configuration `cfg`, where `reply` is
      what the service answers to the classification request. */
  function DetectRisk(cfg: AiConfig, mensajes: seq<string>, reply: ServiceReply): (r: Call<Classification>)
    ensures r.NotConfigured? <==> !HasClient(cfg)
    ensures r.Unavailable? <==> HasClient(cfg) && reply.ServiceFailed?
    ensures HasClient(cfg) ==> r.Sent() == Some(ClassifierRequest(cfg, mensajes))
    ensures r.Answered? ==>
              (r.value.risk != SinRiesgo <==> HasDetection(ReplyText(reply.content)))
              && (r.value.risk == SinRiesgo ==> r.value == NoRisk)
              && Trimmed(r.value.explanation)
  {
    if !HasClient(cfg) then NotConfigured
    else
      var request := ClassifierRequest(cfg, mensajes);
      match reply
      case ServiceFailed => Unavailable(request)
      case Replied(content) => Answered(request, ParseReply(ReplyText(content)))
  }

  /** A service that answers with a well-formed detection line, whatever
      whitespace surrounds it, yields that label and explanation. */
  lemma DetectRiskReadsDetectionLine(cfg: AiConfig, mensajes: seq<string>, l: Label, e: string, pre: string, post: string)
    requires HasClient(cfg)
    requires l != SinRiesgo && ReadableExplanation(e)
    requires AllWhitespace(pre) && AllWhitespace(post)
    ensures DetectRisk(cfg, mensajes, Replied(Some(pre + DetectionLine(l, e) + post)))
      == Answered(ClassifierRequest(cfg, mensajes), Classification(l, e))
  {
    DetectionLineRoundTrip(l, e, pre, post);
  }

  /** A reply without content reads as no risk. */
  lemma DetectRiskEmptyReplyIsNoRisk(cfg: AiConfig, mensajes: seq<string>)
    requires HasClient(cfg)
    ensures DetectRisk(cfg, mensajes, Replied(None)) == Answered(ClassifierRequest(cfg, mensajes), NoRisk)
  {
  }
}
