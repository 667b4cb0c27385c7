/**
 Token usage: folding the usage reports of a streamed answer while relaying it line by line, and reading
 the one report of an answer that is not streamed. The JSON decoder is a parameter.
 */
module Usage {
  import opened Basics
  import Text

  // ---------- What upstreams report ----------

  /** usagePayload: every field may be absent. */
  datatype Report = Report(
    prompt: Option<int>,
    completion: Option<int>,
    total: Option<int>,
    input: Option<int>,
    output: Option<int>)

  datatype Message = Message(id: string, usage: Option<Report>)

  /** spendEnvelope; an absent string is empty. */
  datatype Envelope = Envelope(id: string, kind: string, usage: Option<Report>, message: Option<Message>)

  /** json.Unmarshal into a spendEnvelope, None on an error. */
  type Decoder = string -> Option<Envelope>

  datatype Tokens = Tokens(prompt: int, completion: int, total: int)

  /** spend.UpstreamResp, as far as it is filled in. */
  datatype Payload = Payload(id: string, usage: Tokens)

  const NO_TOKENS: Tokens := Tokens(0, 0, 0)

  /** The prompt tokens a report names; input_tokens wins over prompt_tokens. */
  function PromptOf(r: Report): Option<int> {
    if r.input.Some? then r.input else r.prompt
  }

  function CompletionOf(r: Report): Option<int> {
    if r.output.Some? then r.output else r.completion
  }

  function OrElse(o: Option<int>, fallback: int): int {
    if o.Some? then o.value else fallback
  }

  /** normalizedTokenUsage */
  function Normalized(r: Report, base: Tokens): Tokens {
    var prompt := OrElse(PromptOf(r), base.prompt);
    var completion := OrElse(CompletionOf(r), base.completion);
    Tokens(prompt, completion,
      if r.total.Some? then r.total.value
      else if PromptOf(r).Some? || CompletionOf(r).Some? then prompt + completion
      else base.total)
  }

  /** mergeUsage; no usage yet counts as zeroes. */
  function Merge(usage: Option<Tokens>, r: Option<Report>): Option<Tokens> {
    if r.None? then usage
    else Some(Normalized(r.value, if usage.Some? then usage.value else NO_TOKENS))
  }

  // ---------- One line ----------

  /** The envelope a line carries. Blank lines, other fields, [DONE] and undecodable data carry none. */
  function EventOf(line: string, decode: Decoder): Option<Envelope> {
    var trimmed := Text.Trim(line);
    if !("data:" <= trimmed) then None
    else
      var data := Text.Trim(trimmed[|"data:"|..]);
      if data == "" || data == "[DONE]" then None else decode(data)
  }

  /** The report the fold takes from an envelope. */
  function ReportOf(e: Envelope, anthropic: bool): Option<Report> {
    if anthropic && e.kind == "message_start" then
      if e.message.Some? then e.message.value.usage else None
    else e.usage
  }

  /** The request id an envelope sets, if any; its own id is assigned last. */
  function IdOf(e: Envelope, current: string): string {
    if e.id != "" then e.id
    else if e.message.Some? && e.message.value.id != "" then e.message.value.id
    else current
  }

  datatype Tally = Tally(id: string, usage: Option<Tokens>)

  const NOTHING_YET: Tally := Tally("", None)

  /** parseSpendStreamLine */
  function ReadLine(t: Tally, line: string, decode: Decoder, anthropic: bool): Tally {
    match EventOf(line, decode)
    case None => t
    case Some(e) => Tally(IdOf(e, t.id), Merge(t.usage, ReportOf(e, anthropic)))
  }

  // ---------- All lines ----------

  function ReadLines(t: Tally, lines: seq<string>, decode: Decoder, anthropic: bool): Tally
    decreases |lines|
  {
    if lines == [] then t
    else ReadLines(ReadLine(t, lines[0], decode, anthropic), lines[1..], decode, anthropic)
  }

  /** The reports a stream carries, in order. */
  function Reports(lines: seq<string>, decode: Decoder, anthropic: bool): seq<Report> {
    if lines == [] then []
    else
      var rest := Reports(lines[1..], decode, anthropic);
      match EventOf(lines[0], decode)
      case None => rest
      case Some(e) =>
        match ReportOf(e, anthropic)
        case None => rest
        case Some(r) => [r] + rest
  }

  function Fold(base: Tokens, reports: seq<Report>): Tokens
    decreases |reports|
  {
    if reports == [] then base else Fold(Normalized(reports[0], base), reports[1..])
  }

  /** A line that carries no envelope may stand anywhere, or be left out. */
  lemma {:induction false} NoiseDoesNotCount(t: Tally, before: seq<string>, noise: string, after: seq<string>,
                                             decode: Decoder, anthropic: bool)
    requires EventOf(noise, decode).None?
    ensures ReadLines(t, before + [noise] + after, decode, anthropic) == ReadLines(t, before + after, decode, anthropic)
    decreases |before|
  {
    var all := before + [noise] + after;
    if before == [] {
      assert all[1..] == after && before + after == after;
    } else {
      assert all[1..] == before[1..] + [noise] + after;
      assert (before + after)[1..] == before[1..] + after;
      NoiseDoesNotCount(ReadLine(t, before[0], decode, anthropic), before[1..], noise, after, decode, anthropic);
    }
  }

  /** What a stream adds up to depends on its reports alone. */
  lemma {:induction false} UsageFollowsReports(t: Tally, lines: seq<string>, decode: Decoder, anthropic: bool)
    ensures var reports := Reports(lines, decode, anthropic);
            ReadLines(t, lines, decode, anthropic).usage
            == if reports == [] then t.usage
               else Some(Fold(if t.usage.Some? then t.usage.value else NO_TOKENS, reports))
    decreases |lines|
  {
    if lines != [] {
      UsageFollowsReports(ReadLine(t, lines[0], decode, anthropic), lines[1..], decode, anthropic);
      var e := EventOf(lines[0], decode);
      if e.Some? && ReportOf(e.value, anthropic).Some? {
        var r := ReportOf(e.value, anthropic).value;
        var rest := Reports(lines[1..], decode, anthropic);
        assert ([r] + rest)[1..] == rest;
      }
    }
  }

  // ---------- What the fold means ----------

  ghost predicate Silent(reports: seq<Report>, field: Report -> Option<int>, from: nat) {
    forall k :: from <= k < |reports| ==> field(reports[k]).None?
  }

  /** `v` is the last value the reports give the field, or the fallback if they give none. */
  ghost predicate LastReported(reports: seq<Report>, field: Report -> Option<int>, fallback: int, v: int) {
    || (Silent(reports, field, 0) && v == fallback)
    || exists k :: 0 <= k < |reports| && field(reports[k]) == Some(v) && Silent(reports, field, k + 1)
  }

  lemma LastReportedStep(r: Report, rest: seq<Report>, field: Report -> Option<int>, fallback: int, v: int)
    requires LastReported(rest, field, OrElse(field(r), fallback), v)
    ensures LastReported([r] + rest, field, fallback, v)
  {
    var all := [r] + rest;
    assert forall k :: 0 <= k < |rest| ==> all[k + 1] == rest[k];
    if Silent(rest, field, 0) {
      assert Silent(all, field, 1) by {
        forall k | 1 <= k < |all|
          ensures field(all[k]).None?
        {
          assert all[k] == rest[k - 1];
        }
      }
      assert field(all[0]).Some? ==> field(all[0]) == Some(v);
    } else {
      var k :| 0 <= k < |rest| && field(rest[k]) == Some(v) && Silent(rest, field, k + 1);
      forall j | k + 2 <= j < |all|
        ensures field(all[j]).None?
      {
        assert all[j] == rest[j - 1];
      }
      assert field(all[k + 1]) == Some(v) && Silent(all, field, k + 2);
    }
  }

  /** Whether a report names any field at all. */
  predicate Speaks(r: Report) {
    PromptOf(r).Some? || CompletionOf(r).Some? || r.total.Some?
  }

  /** The total is the one of the last report that names anything, or else the sum the stream ends with. */
  ghost predicate TotalReported(reports: seq<Report>, fallback: int, t: Tokens) {
    || ((forall k :: 0 <= k < |reports| ==> !Speaks(reports[k])) && t.total == fallback)
    || exists k :: LastToSpeak(reports, k) && t.total == OrElse(reports[k].total, t.prompt + t.completion)
  }

  ghost predicate LastToSpeak(reports: seq<Report>, k: int) {
    0 <= k < |reports| && Speaks(reports[k]) && forall j :: k < j < |reports| ==> !Speaks(reports[j])
  }

  /** Each field is its last reported value. */
  lemma {:induction false} FieldsAreLastReported(base: Tokens, reports: seq<Report>)
    ensures LastReported(reports, PromptOf, base.prompt, Fold(base, reports).prompt)
    ensures LastReported(reports, CompletionOf, base.completion, Fold(base, reports).completion)
    decreases |reports|
  {
    if reports != [] {
      var next := Normalized(reports[0], base);
      FieldsAreLastReported(next, reports[1..]);
      assert reports == [reports[0]] + reports[1..];
      LastReportedStep(reports[0], reports[1..], PromptOf, base.prompt, Fold(base, reports).prompt);
      LastReportedStep(reports[0], reports[1..], CompletionOf, base.completion, Fold(base, reports).completion);
    }
  }

  lemma {:induction false} SilentReportsChangeNothing(base: Tokens, reports: seq<Report>)
    requires forall k :: 0 <= k < |reports| ==> !Speaks(reports[k])
    ensures Fold(base, reports) == base
  {
    if reports != [] {
      assert Normalized(reports[0], base) == base;
      SilentReportsChangeNothing(base, reports[1..]);
    }
  }

  lemma {:induction false} TotalIsLastReported(base: Tokens, reports: seq<Report>)
    ensures TotalReported(reports, base.total, Fold(base, reports))
    decreases |reports|
  {
    if reports != [] {
      var r, rest := reports[0], reports[1..];
      var next := Normalized(r, base);
      TotalIsLastReported(next, rest);
      if forall k :: 0 <= k < |rest| ==> !Speaks(rest[k]) {
        SilentReportsChangeNothing(next, rest);
        assert forall k :: 1 <= k < |reports| ==> reports[k] == rest[k - 1];
        assert Speaks(r) ==> LastToSpeak(reports, 0);
      } else {
        var k :| LastToSpeak(rest, k)
                 && Fold(next, rest).total
                    == OrElse(rest[k].total, Fold(next, rest).prompt + Fold(next, rest).completion);
        assert forall j :: 1 <= j < |reports| ==> reports[j] == rest[j - 1];
        assert LastToSpeak(reports, k + 1);
      }
    }
  }

  /** What a whole stream adds up to: nothing without a report, otherwise the last reported values. */
  lemma StreamUsage(lines: seq<string>, decode: Decoder, anthropic: bool)
    ensures var reports := Reports(lines, decode, anthropic);
            var usage := ReadLines(NOTHING_YET, lines, decode, anthropic).usage;
            && (usage.None? <==> reports == [])
            && (usage.Some? ==>
                  && LastReported(reports, PromptOf, 0, usage.value.prompt)
                  && LastReported(reports, CompletionOf, 0, usage.value.completion)
                  && TotalReported(reports, 0, usage.value))
  {
    UsageFollowsReports(NOTHING_YET, lines, decode, anthropic);
    FieldsAreLastReported(NO_TOKENS, Reports(lines, decode, anthropic));
    TotalIsLastReported(NO_TOKENS, Reports(lines, decode, anthropic));
  }

  /** The last report that names prompt tokens, under either name. */
  ghost predicate LastOnPrompt(reports: seq<Report>, k: int) {
    && 0 <= k < |reports| && (reports[k].prompt.Some? || reports[k].input.Some?)
    && forall j :: k < j < |reports| ==> reports[j].prompt.None? && reports[j].input.None?
  }

  ghost predicate LastOnCompletion(reports: seq<Report>, k: int) {
    && 0 <= k < |reports| && (reports[k].completion.Some? || reports[k].output.Some?)
    && forall j :: k < j < |reports| ==> reports[j].completion.None? && reports[j].output.None?
  }

  /** The value of the first of two names that is given. */
  function Either(first: Option<int>, second: Option<int>): int {
    if first.Some? then first.value else if second.Some? then second.value else 0
  }

  /**
   The same in the names of the fields: the prompt tokens are input_tokens or else prompt_tokens of the last
   report that gives one of them, and the completion tokens output_tokens or else completion_tokens.
   */
  lemma {:induction false} StreamUsageByName(lines: seq<string>, decode: Decoder, anthropic: bool, k: int)
    ensures var reports := Reports(lines, decode, anthropic);
            var usage := ReadLines(NOTHING_YET, lines, decode, anthropic).usage;
            && (LastOnPrompt(reports, k) ==>
                  usage.Some? && usage.value.prompt == Either(reports[k].input, reports[k].prompt))
            && (LastOnCompletion(reports, k) ==>
                  usage.Some? && usage.value.completion == Either(reports[k].output, reports[k].completion))
            && (usage.Some? && (forall j :: 0 <= j < |reports| ==> reports[j].prompt.None? && reports[j].input.None?)
                ==> usage.value.prompt == 0)
            && (usage.Some?
                && (forall j :: 0 <= j < |reports| ==> reports[j].completion.None? && reports[j].output.None?)
                ==> usage.value.completion == 0)
  {
    StreamUsage(lines, decode, anthropic);
    var reports := Reports(lines, decode, anthropic);
    if LastOnPrompt(reports, k) {
      LastIsReported(reports, PromptOf, ReadLines(NOTHING_YET, lines, decode, anthropic).usage.value.prompt, k);
    }
    if LastOnCompletion(reports, k) {
      LastIsReported(reports, CompletionOf, ReadLines(NOTHING_YET, lines, decode, anthropic).usage.value.completion, k);
    }
  }

  lemma LastIsReported(reports: seq<Report>, field: Report -> Option<int>, v: int, k: nat)
    requires LastReported(reports, field, 0, v)
    requires k < |reports| && field(reports[k]).Some? && Silent(reports, field, k + 1)
    ensures field(reports[k]) == Some(v)
  {
    assert !Silent(reports, field, 0);
    var i :| 0 <= i < |reports| && field(reports[i]) == Some(v) && Silent(reports, field, i + 1);
    assert i == k;
  }

  // ---------- The request id ----------

  /** The events a stream carries, in order. */
  function Events(lines: seq<string>, decode: Decoder): seq<Envelope> {
    if lines == [] then []
    else
      var rest := Events(lines[1..], decode);
      match EventOf(lines[0], decode)
      case None => rest
      case Some(e) => [e] + rest
  }

  /** Whether an event gives an id, its own or its message's. */
  predicate Names(e: Envelope) {
    e.id != "" || (e.message.Some? && e.message.value.id != "")
  }

  ghost predicate LastToName(events: seq<Envelope>, k: int) {
    0 <= k < |events| && Names(events[k]) && forall j :: k < j < |events| ==> !Names(events[j])
  }

  /** The id the events leave, from the last one that gives one: its own, or else its message's. */
  ghost predicate LastNamed(events: seq<Envelope>, fallback: string, id: string) {
    || ((forall k :: 0 <= k < |events| ==> !Names(events[k])) && id == fallback)
    || exists k :: LastToName(events, k) && id == NameOf(events[k])
  }

  function NameOf(e: Envelope): string {
    if e.id != "" then e.id else if e.message.Some? then e.message.value.id else ""
  }

  lemma {:induction false} LastNamedStep(e: Envelope, rest: seq<Envelope>, fallback: string, id: string)
    requires LastNamed(rest, if Names(e) then NameOf(e) else fallback, id)
    ensures LastNamed([e] + rest, fallback, id)
  {
    var all := [e] + rest;
    assert all[0] == e && forall k :: 1 <= k < |all| ==> all[k] == rest[k - 1];
    if forall k :: 0 <= k < |rest| ==> !Names(rest[k]) {
      assert Names(e) ==> LastToName(all, 0);
    } else {
      var k :| LastToName(rest, k) && id == NameOf(rest[k]);
      assert LastToName(all, k + 1);
    }
  }

  /** The id of a stream is the last one an event gives, and events that give none keep it. */
  lemma {:induction false} StreamIdIsLastNamed(t: Tally, lines: seq<string>, decode: Decoder, anthropic: bool)
    ensures LastNamed(Events(lines, decode), t.id, ReadLines(t, lines, decode, anthropic).id)
    decreases |lines|
  {
    if lines != [] {
      StreamIdIsLastNamed(ReadLine(t, lines[0], decode, anthropic), lines[1..], decode, anthropic);
      if EventOf(lines[0], decode).Some? {
        LastNamedStep(EventOf(lines[0], decode).value, Events(lines[1..], decode), t.id,
                      ReadLines(t, lines, decode, anthropic).id);
      }
    }
  }

  /** Only data lines with something in them carry events, and the end marker is none. */
  lemma OnlyDataIsAnEvent(line: string, decode: Decoder)
    ensures EventOf(line, decode).Some? ==> "data:" <= Text.Trim(line)
    ensures EventOf("", decode).None? && EventOf("\n", decode).None?
    ensures EventOf("data:[DONE]", decode).None? && EventOf("data:", decode).None?
  {
    assert Text.TrimLeft("\n") == "";
    assert Text.Trim("data:[DONE]") == "data:[DONE]" && "data:[DONE]"[5..] == "[DONE]";
    assert Text.Trim("[DONE]") == "[DONE]";
    assert Text.Trim("data:") == "data:" && "data:"[5..] == "";
  }

  lemma {:induction false} FoldKeepsSum(base: Tokens, reports: seq<Report>)
    requires base.total == base.prompt + base.completion
    requires forall k :: 0 <= k < |reports| ==> reports[k].total.None?
    ensures var t := Fold(base, reports);
            t.total == t.prompt + t.completion
    decreases |reports|
  {
    if reports != [] {
      FoldKeepsSum(Normalized(reports[0], base), reports[1..]);
    }
  }

  /** When no report carries a total, the total is the sum. */
  lemma TotalIsSum(lines: seq<string>, decode: Decoder, anthropic: bool)
    requires forall r :: r in Reports(lines, decode, anthropic) ==> r.total.None?
    ensures var usage := ReadLines(NOTHING_YET, lines, decode, anthropic).usage;
            usage.Some? ==> usage.value.total == usage.value.prompt + usage.value.completion
  {
    UsageFollowsReports(NOTHING_YET, lines, decode, anthropic);
    FoldKeepsSum(NO_TOKENS, Reports(lines, decode, anthropic));
  }

  // ---------- Answers that are not streamed ----------

  /** The report a body is billed by: its message's, or else its own. */
  function BodyReport(e: Envelope): Option<Report> {
    if e.message.Some? && e.message.value.usage.Some? then e.message.value.usage else e.usage
  }

  /** The id a body is billed under: its message's, or else its own. */
  function BodyId(e: Envelope): string {
    if e.message.Some? && e.message.value.id != "" then e.message.value.id else e.id
  }

  /** buildSpendPayloadFromEnvelope; an undecodable body gives no payload either. */
  function BodyPayload(body: string, decode: Decoder): Option<Payload> {
    match decode(body)
    case None => None
    case Some(e) =>
      if BodyReport(e).None? then None else Some(Payload(BodyId(e), Normalized(BodyReport(e).value, NO_TOKENS)))
  }

  /** What a stream leaves for billing. */
  function StreamPayload(lines: seq<string>, decode: Decoder, anthropic: bool): Option<Payload> {
    var t := ReadLines(NOTHING_YET, lines, decode, anthropic);
    if t.usage.None? then None else Some(Payload(t.id, t.usage.value))
  }

  // ---------- Lines of a body ----------

  /** One past the end of the line that starts at `from`, its newline included. */
  function LineEnd(body: string, from: nat): (end: nat)
    requires from < |body|
    ensures from < end <= |body|
    decreases |body| - from
  {
    if body[from] == '\n' || from + 1 == |body| then from + 1 else LineEnd(body, from + 1)
  }

  function Lines(body: string, from: nat := 0): seq<string>
    requires from <= |body|
    decreases |body| - from
  {
    if from == |body| then []
    else
      var end := LineEnd(body, from);
      [body[from..end]] + Lines(body, end)
  }

  function Concat(lines: seq<string>): string {
    if lines == [] then "" else lines[0] + Concat(lines[1..])
  }

  lemma {:induction false} LineEndsAtNewline(body: string, from: nat)
    requires from < |body|
    ensures var end := LineEnd(body, from);
            && (forall i :: from <= i < end - 1 ==> body[i] != '\n')
            && (body[end - 1] == '\n' || end == |body|)
    decreases |body| - from
  {
    if body[from] != '\n' && from + 1 < |body| {
      LineEndsAtNewline(body, from + 1);
    }
  }

  lemma CutAt(body: string, from: nat, end: nat)
    requires from < end <= |body|
    ensures body[from..] == body[from..end] + body[end..]
    ensures '\n' in body[from..end][..end - from - 1] ==> exists i :: from <= i < end - 1 && body[i] == '\n'
  {
    if '\n' in body[from..end][..end - from - 1] {
      var i :| 0 <= i < end - from - 1 && body[from..end][i] == '\n';
      assert body[from + i] == '\n';
    }
  }

  /** The lines are the body, cut after every newline and nowhere else. */
  lemma {:induction false} LinesCutTheBody(body: string, from: nat)
    requires from <= |body|
    ensures Concat(Lines(body, from)) == body[from..]
    ensures forall k :: 0 <= k < |Lines(body, from)| ==>
              var line := Lines(body, from)[k];
              && line != "" && '\n' !in line[..|line| - 1]
              && (k < |Lines(body, from)| - 1 ==> line[|line| - 1] == '\n')
    decreases |body| - from
  {
    if from < |body| {
      var end := LineEnd(body, from);
      LineEndsAtNewline(body, from);
      LinesCutTheBody(body, end);
      CutAt(body, from, end);
      assert end < |body| ==> body[end - 1] == '\n';
      assert ([body[from..end]] + Lines(body, end))[1..] == Lines(body, end);
    }
  }

  lemma {:induction false} LineEndIs(body: string, from: nat, end: nat)
    requires from < end <= |body| && body[end - 1] == '\n' && forall i :: from <= i < end - 1 ==> body[i] != '\n'
    ensures LineEnd(body, from) == end
    decreases end - from
  {
    if from + 1 < end {
      LineEndIs(body, from + 1, end);
    }
  }

  lemma {:induction false} LineEndShifts(before: string, body: string, from: nat)
    requires from < |body|
    ensures LineEnd(before + body, |before| + from) == |before| + LineEnd(body, from)
    decreases |body| - from
  {
    if body[from] != '\n' && from + 1 < |body| {
      LineEndShifts(before, body, from + 1);
    }
  }

  lemma {:induction false} LinesShift(before: string, body: string, from: nat)
    requires from <= |body|
    ensures Lines(before + body, |before| + from) == Lines(body, from)
    decreases |body| - from
  {
    if from < |body| {
      var end := LineEnd(body, from);
      LineEndShifts(before, body, from);
      LinesShift(before, body, end);
      SliceShifts(before, body, from, end);
    }
  }

  lemma SliceShifts(before: string, body: string, from: nat, end: nat)
    requires from <= end <= |body|
    ensures (before + body)[|before| + from..|before| + end] == body[from..end]
  {
  }

  lemma {:induction false} FirstLine(first: string, rest: string)
    requires '\n' !in first
    ensures Lines(first + "\n" + rest) == [first + "\n"] + Lines(rest)
  {
    var line := first + "\n";
    var body := line + rest;
    LineEndIs(body, 0, |line|);
    LinesShift(line, rest, 0);
    assert body[0..|line|] == line;
  }

  // ---------- One event, streamed or not ----------

  /** The line of a stream that carries one JSON text. */
  function DataLine(data: string): string {
    "data:" + data + "\n"
  }

  /** A text without a newline is read back as the one line it was sent as. */
  lemma {:induction false} TextWithoutNewline(data: string)
    requires '\n' !in data
    ensures Lines(DataLine(data)) == [DataLine(data)]
  {
    FirstLine("data:" + data, "");
    assert ("data:" + data) + "\n" + "" == DataLine(data);
  }

  /** What that line leaves for billing, once it has been read from the wire. */
  function EventPayload(data: string, decode: Decoder, anthropic: bool): Option<Payload> {
    StreamPayload(Lines(DataLine(data)), decode, anthropic)
  }

  lemma DataLineCarries(data: string, decode: Decoder)
    requires data != "" && Text.Trimmed(data) && data != "[DONE]"
    ensures EventOf(DataLine(data), decode) == decode(data)
  {
    var line := DataLine(data);
    var text := "data:" + data;
    assert line == text + "\n" && line[0] == 'd';
    assert Text.TrimLeft(line) == line;
    assert line[..|line| - 1] == text && text[|text| - 1] == data[|data| - 1];
    assert Text.TrimRight(line) == text;
    assert text[|"data:"|..] == data;
    assert Text.TrimLeft(data) == data && Text.TrimRight(data) == data;
  }

  /** The event's own id and its message's, as far as both are given, are the same. */
  predicate IdsAgree(e: Envelope) {
    e.id != "" && e.message.Some? && e.message.value.id != "" ==> e.message.value.id == e.id
  }

  /**
   For every event there is: streamed on one line and sent as a body it bills the same exactly when the stream
   and the body read reports of the same tokens and its ids agree, or neither reads a report.
   */
  lemma {:induction false} OneEventBillsLikeBody(data: string, decode: Decoder, e: Envelope, anthropic: bool)
    requires data != "" && Text.Trimmed(data) && data != "[DONE]" && '\n' !in data && decode(data) == Some(e)
    ensures EventPayload(data, decode, anthropic) == BodyPayload(data, decode)
            <==> match (ReportOf(e, anthropic), BodyReport(e))
                 case (None, None) => true
                 case (Some(s), Some(b)) => Normalized(s, NO_TOKENS) == Normalized(b, NO_TOKENS) && IdsAgree(e)
                 case _ => false
  {
    OneEventPayload(data, decode, e, anthropic);
    if ReportOf(e, anthropic).Some? && BodyReport(e).Some? {
      assert IdOf(e, "") == BodyId(e) <==> IdsAgree(e);
    }
  }

  lemma {:induction false} OneEventPayload(data: string, decode: Decoder, e: Envelope, anthropic: bool)
    requires data != "" && Text.Trimmed(data) && data != "[DONE]" && '\n' !in data && decode(data) == Some(e)
    ensures EventPayload(data, decode, anthropic)
            == match ReportOf(e, anthropic)
               case None => None
               case Some(s) => Some(Payload(IdOf(e, ""), Normalized(s, NO_TOKENS)))
  {
    var line := DataLine(data);
    DataLineCarries(data, decode);
    TextWithoutNewline(data);
    assert ReadLines(NOTHING_YET, [line], decode, anthropic) == ReadLine(NOTHING_YET, line, decode, anthropic);
  }

  /** What one report alone is billed as. */
  ghost predicate BilledAs(usage: Tokens, r: Report) {
    && usage.prompt == Either(r.input, r.prompt)
    && usage.completion == Either(r.output, r.completion)
    && usage.total == if r.total.Some? then r.total.value else usage.prompt + usage.completion
  }

  /**
   What is read from where. A streamed event is billed by its own report, an Anthropic message_start by its
   message's, under its own id or else its message's; a body by its message's report or else its own, under its
   message's id or else its own.
   */
  lemma {:induction false} OneEventByName(data: string, decode: Decoder, e: Envelope, anthropic: bool)
    requires data != "" && Text.Trimmed(data) && data != "[DONE]" && '\n' !in data && decode(data) == Some(e)
    ensures var ofMessage := if e.message.Some? then e.message.value.usage else None;
            var messageId := if e.message.Some? then e.message.value.id else "";
            var streamed, sent := EventPayload(data, decode, anthropic), BodyPayload(data, decode);
            var source := if anthropic && e.kind == "message_start" then ofMessage else e.usage;
            && (streamed.Some? <==> source.Some?)
            && (streamed.Some? ==>
                  && BilledAs(streamed.value.usage, source.value)
                  && streamed.value.id == if e.id != "" then e.id else messageId)
            && (sent.Some? <==> ofMessage.Some? || e.usage.Some?)
            && (sent.Some? ==>
                  && BilledAs(sent.value.usage, if ofMessage.Some? then ofMessage.value else e.usage.value)
                  && sent.value.id == if messageId != "" then messageId else e.id)
  {
    OneEventPayload(data, decode, e, anthropic);
  }

  /**
   Streamed to anything but the Anthropic adapter, or under another kind, usage that only a message reports is
   lost, while the same JSON as a body is billed.
   */
  lemma {:induction false} StreamLosesMessageUsage(data: string, decode: Decoder, e: Envelope, anthropic: bool)
    requires data != "" && Text.Trimmed(data) && data != "[DONE]" && '\n' !in data && decode(data) == Some(e)
    requires !(anthropic && e.kind == "message_start") && e.usage.None?
    requires e.message.Some? && e.message.value.usage.Some?
    ensures EventPayload(data, decode, anthropic).None? && BodyPayload(data, decode).Some?
  {
    OneEventPayload(data, decode, e, anthropic);
  }

  /** A flat event, one without a message, bills the same either way, unless it is an Anthropic message_start. */
  lemma {:induction false} FlatEventBillsLikeBody(data: string, decode: Decoder, e: Envelope, anthropic: bool)
    requires data != "" && Text.Trimmed(data) && data != "[DONE]" && '\n' !in data && decode(data) == Some(e)
    requires e.message.None?
    ensures EventPayload(data, decode, anthropic) == BodyPayload(data, decode)
            <==> !(anthropic && e.kind == "message_start" && e.usage.Some?)
  {
    OneEventBillsLikeBody(data, decode, e, anthropic);
  }

  lemma {:induction false} NothingRead(lines: seq<string>, decode: Decoder, anthropic: bool)
    requires forall i :: 0 <= i < |lines| ==> EventOf(lines[i], decode).None?
    ensures ReadLines(NOTHING_YET, lines, decode, anthropic) == NOTHING_YET
  {
    if lines != [] {
      NothingRead(lines[1..], decode, anthropic);
    }
  }

  /**
   A text with a newline in it does not reach the stream's decoder: its first line is only a piece of it, and
   the lines after it are no data lines. A body is decoded whole, so that what it bills is lost when streamed.
   */
  lemma {:induction false} NewlineLosesUsage(a: string, b: string, decode: Decoder, anthropic: bool)
    requires '\n' !in a && EventOf("data:" + a + "\n", decode).None?
    requires forall i :: 0 <= i < |Lines(b + "\n")| ==> !("data:" <= Text.Trim(Lines(b + "\n")[i]))
    ensures EventPayload(a + "\n" + b, decode, anthropic).None?
    ensures EventPayload(a + "\n" + b, decode, anthropic) == BodyPayload(a + "\n" + b, decode)
            <==> BodyPayload(a + "\n" + b, decode).None?
  {
    FirstLine("data:" + a, b + "\n");
    assert ("data:" + a) + "\n" + (b + "\n") == DataLine(a + "\n" + b);
    NothingRead(Lines(DataLine(a + "\n" + b)), decode, anthropic);
  }

  // ---------- Relaying a stream ----------

  datatype StreamError = ClientGone | UpstreamBroke

  /** The client's connection takes this many more bytes; None is a client that stays. */
  type Room = Option<nat>

  function Fits(room: Room, n: nat): bool {
    room.None? || n <= room.value
  }

  function Taken(room: Room, text: string): (sent: string)
    ensures sent <= text
  {
    if Fits(room, |text|) then text else text[..room.value]
  }

  /** What relaying a stream comes to: everything and its payload, or the part the client took and an error. */
  function Relayed(body: string, broken: bool, room: Room, decode: Decoder, anthropic: bool)
    : Result<Option<Payload>, StreamError>
  {
    if !Fits(room, |body|) then Err(ClientGone)
    else if broken then Err(UpstreamBroke)
    else Ok(StreamPayload(Lines(body), decode, anthropic))
  }

  /** A relay succeeds exactly when the stream ends well and the client takes all of it, and passes on what fits. */
  lemma RelayByRoom(body: string, broken: bool, room: Room, decode: Decoder, anthropic: bool)
    ensures Taken(room, body) == if room.None? || |body| <= room.value then body else body[..room.value]
    ensures var r := Relayed(body, broken, room, decode, anthropic);
            && (r.Ok? <==> !broken && (room.None? || |body| <= room.value))
            && (r == Err(UpstreamBroke) <==> broken && (room.None? || |body| <= room.value))
  {
  }

  /** streamToClient: `body` is what arrives before the end of the stream, or before the read error if `broken`. */
  method StreamToClient(body: string, broken: bool, room: Room, decode: Decoder, anthropic: bool)
    returns (sent: string, r: Result<Option<Payload>, StreamError>)
    ensures sent == Taken(room, body)
    ensures r == Relayed(body, broken, room, decode, anthropic)
    ensures sent <= body && (r.Ok? ==> sent == body) && (r == Err(ClientGone) <==> sent != body)
  {
    sent := "";
    var tally := NOTHING_YET;
    var from: nat := 0;
    while from < |body|
      invariant from <= |body| && sent == body[..from] && Fits(room, from)
      invariant ReadLines(tally, Lines(body, from), decode, anthropic)
                == ReadLines(NOTHING_YET, Lines(body), decode, anthropic)
      decreases |body| - from
    {
      var end := LineEnd(body, from);
      var line := body[from..end];
      if !Fits(room, |sent| + |line|) {
        sent := sent + line[..room.value - |sent|];
        assert sent == body[..room.value];
        return sent, Err(ClientGone);
      }
      assert Lines(body, from)[1..] == Lines(body, end);
      sent := sent + line;
      tally := ReadLine(tally, line, decode, anthropic);
      from := end;
    }
    assert body[..|body|] == body;
    if broken {
      return sent, Err(UpstreamBroke);
    }
    r := Ok(if tally.usage.None? then None else Some(Payload(tally.id, tally.usage.value)));
  }
}
