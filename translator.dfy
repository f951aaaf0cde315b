/** The translation driver (app/services/translator.py, `TranslationService`): one model call
    for a sheet of at most five rows, otherwise one call per batch of five, the batches'
    results concatenated in order. There is no retry and no fallback: the first batch whose
    call fails aborts the sheet, and no later batch is sent. */
module Translator {
  import opened Wrappers
  import opened Json
  import opened Prompts
  import opened Chunking
  import opened ResponseExtraction
  import opened CsvHeader

  /** What one call of the language model gives back: the parsed JSON content, or a failure
      (the request raised, the content was None, or it was not valid JSON). */
  datatype Reply = Answered(content: Json) | Failed(reason: string)

  /** The language model, seen as a function from the user prompt to its reply. */
  type Model = Json -> Reply

  /** Why one model call produced no rows; both are raised as `GPTAPIError`. */
  datatype CallError = ModelFailed(reason: string) | NoRowArray

  /** The outcome of one call: the translated rows or the reason there are none. */
  type Outcome = Result<seq<Json>, CallError>

  /** Why a sheet could not be translated. */
  datatype SheetError =
    | CallFailed(cause: CallError)              // the single call of a small sheet
    | ChunkFailed(chunk: nat, cause: CallError) // "Failed to translate chunk k", k counted from 1
    | NotADict(index: nat)                      // the ValueError of `_json_to_csv`

  /** The progress callback's two kinds of notification. */
  datatype Event = ChunksTotal(total: nat) | ChunkComplete(chunk: nat, total: nat)

  /** `CHUNK_SIZE` of `translate_csv`. */
  const ChunkSize: nat := 5

  /** How `_translate_json_data` reads a reply: a failure stays a failure, and an answer gives
      the row list `ExtractRows` finds in it. A reply with fewer rows than were sent is kept
      as it is (the source only logs a warning). */
  function Interpret(reply: Reply): (r: Outcome)
    ensures reply.Failed? ==> r == Err(ModelFailed(reply.reason))
    ensures reply.Answered? ==> (r.Ok? <==> ExtractRows(reply.content).Ok?)
    ensures r.Ok? ==> reply.Answered? && ExtractRows(reply.content) == Ok(r.value)
  {
    match reply
    case Failed(reason) => Err(ModelFailed(reason))
    case Answered(content) =>
      match ExtractRows(content)
      case Ok(items) => Ok(items)
      case Err(_) => Err(NoRowArray)
  }

  /** `_translate_json_data`: send the prompt for `rows` and interpret the reply. */
  function TranslateJsonData(rows: seq<Row>, source: string, target: string, model: Model): Outcome
  {
    Interpret(model(UserPrompt(source, target, rows)))
  }

  /** One batch's call, as the chunk loop sees it: `_translate_json_data` with the languages
      and the model fixed. */
  type Call = seq<Row> -> Outcome

  function CallFor(source: string, target: string, model: Model): (call: Call)
    ensures forall rows :: call(rows) == TranslateJsonData(rows, source, target, model)
  {
    rows => TranslateJsonData(rows, source, target, model)
  }

  /** The outcome of each batch's call. */
  function Outcomes(cs: seq<seq<Row>>, call: Call): (outs: seq<Outcome>)
    ensures |outs| == |cs|
    ensures forall j :: 0 <= j < |cs| ==> outs[j] == call(cs[j])
  {
    seq(|cs|, j requires 0 <= j < |cs| => call(cs[j]))
  }

  /** The index of the first failed outcome, if any. */
  function FirstFailure<T, E>(outs: seq<Result<T, E>>): (r: Option<nat>)
    ensures r.Some? ==> r.value < |outs| && outs[r.value].Err?
    ensures r.Some? ==> forall j :: 0 <= j < r.value ==> outs[j].Ok?
    ensures r.None? ==> forall j :: 0 <= j < |outs| ==> outs[j].Ok?
  {
    if |outs| == 0 then None
    else if outs[0].Err? then Some(0)
    else match FirstFailure(outs[1..])
      case None => None
      case Some(i) => Some(i + 1)
  }

  /** The values of the first `n` outcomes, all successful. */
  function Successes<T, E>(outs: seq<Result<T, E>>, n: nat): (ts: seq<T>)
    requires n <= |outs|
    requires forall j :: 0 <= j < n ==> outs[j].Ok?
    ensures |ts| == n
    ensures forall j :: 0 <= j < n ==> ts[j] == outs[j].value
  {
    seq(n, j requires 0 <= j < n => outs[j].value)
  }

  /** The loop of `_translate_in_chunks` over the batch outcomes `outs`, the first batch
      numbered `number`: it either gives the concatenated rows of all batches, or fails with the
      number and cause of the first batch that fails. */
  function Concatenated(outs: seq<Outcome>, number: nat): (r: Result<seq<Json>, SheetError>)
    ensures r.Ok? <==> FirstFailure(outs).None?
    ensures r.Ok? ==> r.value == Flatten(Successes(outs, |outs|))
    ensures r.Err? ==> var m := FirstFailure(outs).value;
      r.error == ChunkFailed(number + m, outs[m].error)
    decreases |outs|
  {
    if |outs| == 0 then Ok([])
    else match outs[0]
      case Err(e) => Err(ChunkFailed(number, e))
      case Ok(t) =>
        match Concatenated(outs[1..], number + 1)
        case Err(e) => Err(e)
        case Ok(rest) =>
          assert Successes(outs, |outs|)[1..] == Successes(outs[1..], |outs| - 1);
          Ok(t + rest)
  }

  /** `_json_to_csv`'s outcome as a sheet outcome. */
  function AsSheet(r: Result<CsvText, CsvError>): (s: Result<CsvText, SheetError>)
    ensures r.Ok? ==> s == Ok(r.value)
    ensures r.Err? ==> s == Err(NotADict(r.error.index))
  {
    match r
    case Ok(t) => Ok(t)
    case Err(NotAnObject(i)) => Err(NotADict(i))
  }

  /** How many batches are sent: up to and including the first failure. */
  function Attempted<T, E>(outs: seq<Result<T, E>>): (n: nat)
    ensures n <= |outs|
    ensures n == |outs| <==> forall j :: 0 <= j < |outs| - 1 ==> outs[j].Ok?
    ensures forall j :: 0 <= j < n - 1 ==> outs[j].Ok?
    ensures n < |outs| ==> 0 < n && outs[n - 1].Err?
    ensures FirstFailure(outs).Some? ==> n == FirstFailure(outs).value + 1
  {
    match FirstFailure(outs)
    case Some(m) => m + 1
    case None => |outs|
  }

  /** How many batches complete: all of them, or those before the first failure. */
  function Completed<T, E>(outs: seq<Result<T, E>>): (n: nat)
    ensures n <= |outs|
    ensures forall j :: 0 <= j < n ==> outs[j].Ok?
    ensures n < |outs| ==> outs[n].Err?
  {
    match FirstFailure(outs)
    case Some(m) => m
    case None => |outs|
  }

  /** The outcome of `_translate_in_chunks` for batches of `size`. */
  function ChunkedResult(rows: seq<Row>, size: nat, call: Call): Result<CsvText, SheetError>
    requires size > 0
  {
    match Concatenated(Outcomes(Chunks(rows, size), call), 1)
    case Err(e) => Err(e)
    case Ok(items) => AsSheet(ToCsv(items))
  }

  /** The batches `_translate_in_chunks` sends, in order: every batch up to and including the
      first that fails. */
  function ChunkedCalls(rows: seq<Row>, size: nat, call: Call): (sent: seq<seq<Row>>)
    requires size > 0
    ensures sent <= Chunks(rows, size)
  {
    var cs := Chunks(rows, size);
    cs[..Attempted(Outcomes(cs, call))]
  }

  /** The callback notifications after `n` completed batches: the batch count once, then the
      number of each completed batch in ascending order; none without a callback. */
  function Notifications(total: nat, n: nat, notify: bool): (evs: seq<Event>)
    ensures !notify ==> evs == []
    ensures notify ==> (|evs| == 1 + n && evs[0] == ChunksTotal(total)
      && forall j :: 1 <= j < |evs| ==> evs[j] == ChunkComplete(j, total))
  {
    if notify then [ChunksTotal(total)] + seq(n, j requires 0 <= j < n => ChunkComplete(j + 1, total))
    else []
  }

  lemma NotificationsStep(total: nat, n: nat, notify: bool)
    ensures Notifications(total, n + 1, notify) ==
      Notifications(total, n, notify) + (if notify then [ChunkComplete(n + 1, total)] else [])
  {
  }

  /** The notifications `_translate_in_chunks` gives: one per completed batch after the count. */
  function ChunkedEvents(rows: seq<Row>, size: nat, call: Call, notify: bool): seq<Event>
    requires size > 0
  {
    var cs := Chunks(rows, size);
    Notifications(|cs|, Completed(Outcomes(cs, call)), notify)
  }

  /** `_translate_in_chunks`, with the batches it sends and the callback notifications it
      gives (`notify` says whether a callback is set). */
  method TranslateInChunks(rows: seq<Row>, size: nat, call: Call, notify: bool)
      returns (r: Result<CsvText, SheetError>, sent: seq<seq<Row>>, events: seq<Event>)
    requires size > 0
    ensures r == ChunkedResult(rows, size, call)
    ensures sent == ChunkedCalls(rows, size, call)
    ensures events == ChunkedEvents(rows, size, call, notify)
  {
    var translated;
    translated, sent, events := TranslateBatches(rows, size, call, notify);
    if translated.Err? {
      return Err(translated.error), sent, events;
    }
    var csv := JsonToCsv(translated.value);
    r := AsSheet(csv);
  }

  /** The loop of `_translate_in_chunks`: each batch of `size` rows in turn is sent and its
      rows appended, until a batch fails. */
  method TranslateBatches(rows: seq<Row>, size: nat, call: Call, notify: bool)
      returns (r: Result<seq<Json>, SheetError>, sent: seq<seq<Row>>, events: seq<Event>)
    requires size > 0
    ensures r == Concatenated(Outcomes(Chunks(rows, size), call), 1)
    ensures sent == ChunkedCalls(rows, size, call)
    ensures events == ChunkedEvents(rows, size, call, notify)
  {
    ghost var cs := Chunks(rows, size);
    ghost var outs := Outcomes(cs, call);
    var translated: seq<Json> := [];
    var totalChunks := (|rows| + size - 1) / size;
    sent, events := [], [];
    if notify {
      events := events + [ChunksTotal(totalChunks)];
    }
    var i := 0;
    ghost var k := 0;
    while i < |rows|
      invariant 0 <= k <= |cs| && i == k * size
      invariant k < |cs| <==> i < |rows|
      invariant forall j :: 0 <= j < k ==> outs[j].Ok?
      invariant translated == Flatten(Successes(outs, k))
      invariant sent == cs[..k]
      invariant events == Notifications(|cs|, k, notify)
      decreases |cs| - k
    {
      var chunk := rows[i..Min(i + size, |rows|)];
      assert chunk == cs[k];
      var chunkNum := i / size + 1;
      assert chunkNum == k + 1 by {
        DivUnique(i, size, k, 0);
      }
      assert cs[..k + 1] == cs[..k] + [chunk];
      sent := sent + [chunk];
      var chunkJson := call(chunk);
      if chunkJson.Err? {
        FirstFailureAt(outs, k);
        return Err(ChunkFailed(chunkNum, chunkJson.error)), sent, events;
      }
      assert Successes(outs, k + 1) == Successes(outs, k) + [chunkJson.value];
      FlattenAppend(Successes(outs, k), chunkJson.value);
      translated := translated + chunkJson.value;
      NotificationsStep(|cs|, k, notify);
      if notify {
        events := events + [ChunkComplete(chunkNum, totalChunks)];
      }
      NextStart(k, size);
      i := i + size;
      k := k + 1;
      ChunkStartAfter(|rows|, size, k);
    }
    assert FirstFailure(outs).None?;
    r := Ok(translated);
  }

  /** A failure after only successes is the first failure. */
  lemma FirstFailureAt<T, E>(outs: seq<Result<T, E>>, k: nat)
    requires k < |outs| && outs[k].Err?
    requires forall j :: 0 <= j < k ==> outs[j].Ok?
    ensures FirstFailure(outs) == Some(k)
  {
    var f := FirstFailure(outs);
    assert f.Some?;
  }

  lemma NextStart(k: nat, size: nat)
    ensures (k + 1) * size == k * size + size
  {
  }

  /** The loop index stays inside the rows exactly while batches remain. */
  lemma ChunkStartAfter(n: nat, size: nat, k: nat)
    requires size > 0 && 0 < k <= ChunkCount(n, size)
    ensures k < ChunkCount(n, size) <==> k * size < n
  {
    ChunkCountIsCeiling(n, size);
    if k < ChunkCount(n, size) {
      ChunkStart(n, size, k);
    }
  }

  /** The outcome of `translate_csv` for a sheet's rows: more than `ChunkSize` rows go through
      the chunk loop, any other number (none included) through one direct call. */
  function TranslateCsvSpec(rows: seq<Row>, call: Call): Result<CsvText, SheetError>
  {
    if |rows| > ChunkSize then ChunkedResult(rows, ChunkSize, call)
    else match call(rows)
      case Err(e) => Err(CallFailed(e))
      case Ok(items) => AsSheet(ToCsv(items))
  }

  /** The batches `translate_csv` sends. */
  function SheetCalls(rows: seq<Row>, call: Call): seq<seq<Row>>
  {
    if |rows| > ChunkSize then ChunkedCalls(rows, ChunkSize, call) else [rows]
  }

  /** The callback notifications `translate_csv` gives; the direct path gives none. */
  function SheetEvents(rows: seq<Row>, call: Call, notify: bool): seq<Event>
  {
    if |rows| > ChunkSize then ChunkedEvents(rows, ChunkSize, call, notify) else []
  }

  /** `translate_csv` on the rows its CSV parses to. */
  method TranslateCsv(rows: seq<Row>, call: Call, notify: bool)
      returns (r: Result<CsvText, SheetError>, sent: seq<seq<Row>>, events: seq<Event>)
    ensures r == TranslateCsvSpec(rows, call)
    ensures sent == SheetCalls(rows, call)
    ensures events == SheetEvents(rows, call, notify)
  {
    if |rows| > ChunkSize {
      r, sent, events := TranslateInChunks(rows, ChunkSize, call, notify);
      return;
    }
    sent, events := [rows], [];
    var translated := call(rows);
    if translated.Err? {
      return Err(CallFailed(translated.error)), sent, events;
    }
    var csv := JsonToCsv(translated.value);
    r := AsSheet(csv);
  }

  /** The outcome of each sheet. */
  function SheetOutcomes(sheets: seq<(string, seq<Row>)>, call: Call): (outs: seq<Result<CsvText, SheetError>>)
    ensures |outs| == |sheets|
    ensures forall j :: 0 <= j < |sheets| ==> outs[j] == TranslateCsvSpec(sheets[j].1, call)
  {
    seq(|sheets|, j requires 0 <= j < |sheets| => TranslateCsvSpec(sheets[j].1, call))
  }

  /** The first `n` sheets' names paired with their tables. */
  function Named(sheets: seq<(string, seq<Row>)>, tables: seq<CsvText>, n: nat): (ts: seq<(string, CsvText)>)
    requires n <= |sheets| && n <= |tables|
    ensures |ts| == n
    ensures forall j :: 0 <= j < n ==> ts[j] == (sheets[j].0, tables[j])
  {
    seq(n, j requires 0 <= j < n => (sheets[j].0, tables[j]))
  }

  /** The batches each sheet's translation sends. */
  function SheetTraces(sheets: seq<(string, seq<Row>)>, call: Call): (ts: seq<seq<seq<Row>>>)
    ensures |ts| == |sheets|
    ensures forall j :: 0 <= j < |sheets| ==> ts[j] == SheetCalls(sheets[j].1, call)
  {
    seq(|sheets|, j requires 0 <= j < |sheets| => SheetCalls(sheets[j].1, call))
  }

  /** The notifications each sheet's translation gives. */
  function SheetEventLists(sheets: seq<(string, seq<Row>)>, call: Call, notify: bool): (es: seq<seq<Event>>)
    ensures |es| == |sheets|
    ensures forall j :: 0 <= j < |sheets| ==> es[j] == SheetEvents(sheets[j].1, call, notify)
  {
    seq(|sheets|, j requires 0 <= j < |sheets| => SheetEvents(sheets[j].1, call, notify))
  }

  /** `translate_multiple_sheets` over the items of its sheet dict, so no name occurs twice:
      every sheet in order, under its own name; the first sheet
      that fails aborts the rest and its error is the result. The batches sent and the
      notifications given are those of the sheets up to and including the failing one. */
  method TranslateMultipleSheets(sheets: seq<(string, seq<Row>)>, call: Call, notify: bool)
      returns (r: Result<seq<(string, CsvText)>, SheetError>, sent: seq<seq<Row>>, events: seq<Event>)
    requires forall i, j :: 0 <= i < j < |sheets| ==> sheets[i].0 != sheets[j].0
    ensures var outs := SheetOutcomes(sheets, call);
      && (r.Ok? <==> FirstFailure(outs).None?)
      && (r.Ok? ==> r.value == Named(sheets, Successes(outs, |sheets|), |sheets|))
      && (r.Err? ==> r.error == outs[FirstFailure(outs).value].error)
      && sent == Flatten(SheetTraces(sheets, call)[..Attempted(outs)])
      && events == Flatten(SheetEventLists(sheets, call, notify)[..Attempted(outs)])
  {
    ghost var outs := SheetOutcomes(sheets, call);
    ghost var traces := SheetTraces(sheets, call);
    ghost var eventLists := SheetEventLists(sheets, call, notify);
    var translated: seq<(string, CsvText)> := [];
    sent, events := [], [];
    var n := 0;
    while n < |sheets|
      invariant 0 <= n <= |sheets|
      invariant forall j :: 0 <= j < n ==> outs[j].Ok?
      invariant translated == Named(sheets, Successes(outs, n), n)
      invariant sent == Flatten(traces[..n]) && events == Flatten(eventLists[..n])
    {
      var sheetName := sheets[n].0;
      var result, sheetSent, sheetEvents := TranslateCsv(sheets[n].1, call, notify);
      assert result == outs[n] && sheetSent == traces[n] && sheetEvents == eventLists[n];
      FlattenStep(traces, n);
      FlattenStep(eventLists, n);
      sent, events := sent + sheetSent, events + sheetEvents;
      if result.Err? {
        FirstFailureAt(outs, n);
        assert Attempted(outs) == n + 1;
        return Err(result.error), sent, events;
      }
      NamedStep(sheets, outs, n);
      translated := translated + [(sheetName, result.value)];
      n := n + 1;
    }
    assert FirstFailure(outs).None? && Attempted(outs) == n;
    assert traces[..n] == traces && eventLists[..n] == eventLists;
    r := Ok(translated);
  }

  lemma FlattenStep<T>(ss: seq<seq<T>>, n: nat)
    requires n < |ss|
    ensures Flatten(ss[..n + 1]) == Flatten(ss[..n]) + ss[n]
  {
    assert ss[..n + 1] == ss[..n] + [ss[n]];
    FlattenAppend(ss[..n], ss[n]);
  }

  lemma NamedStep(sheets: seq<(string, seq<Row>)>, outs: seq<Result<CsvText, SheetError>>, n: nat)
    requires n < |sheets| && n < |outs|
    requires forall j :: 0 <= j <= n ==> outs[j].Ok?
    ensures Named(sheets, Successes(outs, n + 1), n + 1) ==
      Named(sheets, Successes(outs, n), n) + [(sheets[n].0, outs[n].value)]
  {
  }

  /** A model that answers every prompt with the prompt itself. */
  const Echo: Model := p => Answered(p)

  /** Reading back the prompt finds the rows that were sent under `input_data`, never the
      `rules` list. */
  lemma EchoExtracts(source: string, target: string, rows: seq<Row>)
    ensures ExtractRows(UserPrompt(source, target, rows)) == Ok(Objects(rows))
    ensures TranslateJsonData(rows, source, target, Echo) == Ok(Objects(rows))
  {
    UserPromptFields(source, target, rows);
  }

  /** A reply list with fewer rows than were sent is returned as it is. */
  lemma ShortReplyKept(rows: seq<Row>, source: string, target: string, model: Model, items: seq<Json>)
    requires model(UserPrompt(source, target, rows)) == Answered(JArray(items))
    requires |items| < |rows|
    ensures TranslateJsonData(rows, source, target, model) == Ok(items)
  {
  }

  /** Each row's image under `f`, in order. */
  function MapRows(f: Row -> Json, rows: seq<Row>): (js: seq<Json>)
    ensures |js| == |rows|
    ensures forall i :: 0 <= i < |rows| ==> js[i] == f(rows[i])
  {
    seq(|rows|, i requires 0 <= i < |rows| => f(rows[i]))
  }

  lemma {:induction false} MapRowsFlatten(f: Row -> Json, cs: seq<seq<Row>>)
    ensures Flatten(seq(|cs|, j requires 0 <= j < |cs| => MapRows(f, cs[j]))) == MapRows(f, Flatten(cs))
  {
    var ms := seq(|cs|, j requires 0 <= j < |cs| => MapRows(f, cs[j]));
    if |cs| > 0 {
      var tail := seq(|cs| - 1, j requires 0 <= j < |cs| - 1 => MapRows(f, cs[1..][j]));
      assert ms[1..] == tail;
      MapRowsFlatten(f, cs[1..]);
      assert MapRows(f, cs[0] + Flatten(cs[1..])) == MapRows(f, cs[0]) + MapRows(f, Flatten(cs[1..]));
    }
  }

  /** A call that translates each row on its own, whatever else is in its batch. */
  ghost predicate RowWise(call: Call, f: Row -> Json)
  {
    forall c :: call(c) == Ok(MapRows(f, c))
  }

  /** With a row-wise call, the chunk loop sends every batch, reports every batch complete,
      and returns exactly the rows one call over the whole sheet would: batch boundaries are
      invisible in the result, for every batch size. */
  lemma RowWiseBatches(rows: seq<Row>, size: nat, call: Call, f: Row -> Json, notify: bool)
    requires size > 0 && RowWise(call, f)
    ensures Concatenated(Outcomes(Chunks(rows, size), call), 1) == Ok(MapRows(f, rows))
    ensures ChunkedResult(rows, size, call) == AsSheet(ToCsv(MapRows(f, rows)))
    ensures ChunkedCalls(rows, size, call) == Chunks(rows, size)
    ensures ChunkedEvents(rows, size, call, notify) == Notifications(|Chunks(rows, size)|, |Chunks(rows, size)|, notify)
  {
    var cs := Chunks(rows, size);
    var outs := Outcomes(cs, call);
    assert forall j :: 0 <= j < |cs| ==> outs[j] == Ok(MapRows(f, cs[j]));
    assert FirstFailure(outs).None?;
    assert Successes(outs, |outs|) == seq(|cs|, j requires 0 <= j < |cs| => MapRows(f, cs[j]));
    MapRowsFlatten(f, cs);
    ChunksFlatten(rows, size);
  }

  /** Either path of `translate_csv` gives the same table for a row-wise call. */
  lemma RowWiseSheet(rows: seq<Row>, call: Call, f: Row -> Json)
    requires RowWise(call, f)
    ensures TranslateCsvSpec(rows, call) == AsSheet(ToCsv(MapRows(f, rows)))
  {
    RowWiseBatches(rows, ChunkSize, call, f, false);
  }

  /** End to end, a model that echoes its prompt leaves the sheet's rows unchanged: the table
      holds every row, in order, under the header of those rows. */
  lemma EchoKeepsSheet(rows: seq<Row>, source: string, target: string)
    ensures TranslateCsvSpec(rows, CallFor(source, target, Echo)) == AsSheet(ToCsv(Objects(rows)))
    ensures TranslateCsvSpec(rows, CallFor(source, target, Echo)).Ok?
  {
    var call := CallFor(source, target, Echo);
    var f := (row: Row) => JObject(row);
    forall c ensures call(c) == Ok(MapRows(f, c)) {
      EchoExtracts(source, target, c);
      assert Objects(c) == MapRows(f, c);
    }
    RowWiseSheet(rows, call, f);
    assert Objects(rows) == MapRows(f, rows);
  }

  /** The first batch that fails ends the sheet: the error names it, counted from 1, it is the
      last batch sent, and the batches before it are the ones reported complete. */
  lemma FailureStopsSheet(rows: seq<Row>, size: nat, call: Call, m: nat, notify: bool)
    requires size > 0 && m < |Chunks(rows, size)|
    requires call(Chunks(rows, size)[m]).Err?
    requires forall j :: 0 <= j < m ==> call(Chunks(rows, size)[j]).Ok?
    ensures ChunkedResult(rows, size, call) == Err(ChunkFailed(m + 1, call(Chunks(rows, size)[m]).error))
    ensures ChunkedCalls(rows, size, call) == Chunks(rows, size)[..m + 1]
    ensures ChunkedEvents(rows, size, call, notify) == Notifications(|Chunks(rows, size)|, m, notify)
  {
    var outs := Outcomes(Chunks(rows, size), call);
    FirstFailureAt(outs, m);
  }

  /** A sheet that translates was sent whole, in order, each row exactly once, in batches of at
      most `ChunkSize` rows; every batch is non-empty unless the sheet itself is empty. */
  lemma SheetSentOnce(rows: seq<Row>, call: Call)
    requires TranslateCsvSpec(rows, call).Ok?
    ensures Flatten(SheetCalls(rows, call)) == rows
    ensures forall j :: 0 <= j < |SheetCalls(rows, call)| ==> |SheetCalls(rows, call)[j]| <= ChunkSize
    ensures |rows| > 0 ==> forall j :: 0 <= j < |SheetCalls(rows, call)| ==> |SheetCalls(rows, call)[j]| > 0
  {
    if |rows| > ChunkSize {
      var cs := Chunks(rows, ChunkSize);
      var outs := Outcomes(cs, call);
      assert FirstFailure(outs).None?;
      assert SheetCalls(rows, call) == cs;
      ChunksFlatten(rows, ChunkSize);
      forall j | 0 <= j < |cs| ensures 0 < |cs[j]| <= ChunkSize {
        ChunkSizes(rows, ChunkSize, j);
      }
    } else {
      assert Flatten([rows]) == rows + Flatten([rows][1..]);
    }
  }
}
