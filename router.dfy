/**
 * The decision policy of the POST /preguntar handler: validate the
 * combination of form fields, then take snippets from the first tier that
 * yields any (exact metadata lookup, similarity lookup, random-summary
 * fallback), have the chat service format them as an HTML ordered list, and
 * echo the inputs around that list.
 *
 * `Respond` states the whole policy as a function of the form and the
 * services' answers; `Preguntar` is the handler as written, a staged method
 * over the local snippet list `rawSteps`, proved equal to it.
 */
module Router {
  import opened Wrappers
  import opened PyStr
  import opened PyInt
  import opened Collaborators

  const ExactTopK := 1
  const SimilarTopK := 5
  const SummaryTimeout := 5

  /** What precedes the error text in the body of a formatting failure. */
  const FormatErrorLabel := "Error de formateo: "

  /** The plain-text bodies of the error answers. */
  datatype Message = MixedInput | NothingGiven | ExamIncomplete | NoData | FormatError(detail: string) {
    /** A formatting error's body ends with the error's own text. */
    function Text(): (t: string)
      ensures this.FormatError? ==> |t| >= |FormatErrorLabel| && t[|FormatErrorLabel|..] == this.detail
    {
      if this.FormatError? then FormatErrorLabel + this.detail else FixedText()
    }

    /** The fixed body of every other error. */
    function FixedText(): string
      requires !this.FormatError?
    {
      match this
      case MixedInput => "Si escribes tu pregunta, no puedes usar “Examen”, “Sección”, “Pregunta” ni subir imagen al mismo tiempo."
      case NothingGiven => "Proporciona texto, selecciona examen/sección/pregunta o sube una imagen."
      case ExamIncomplete => "Cuando seleccionas examen, debes elegir sección y pregunta."
      case NoData => "No hay datos en Pinecone y falló la búsqueda aleatoria."
    }
  }

  /** What the handler answers: a 200 body, or a status with the message whose `Text()` is the body. */
  datatype Outcome = Ok(fragment: string) | Err(status: nat, message: Message)

  /** The answer together with the service calls made, in order, to reach it. */
  datatype Handled = Handled(outcome: Outcome, calls: seq<Call>)

  /** The snippet list a tier produced and the calls it made. */
  datatype Stage = Stage(steps: seq<string>, calls: seq<Call>)

  /** The snippet list that reaches formatting, or every tier came up empty and the fallback fetch failed. */
  datatype Retrieval = Retrieved(steps: seq<string>, calls: seq<Call>) | Exhausted(calls: seq<Call>)

  // ---------------------------------------------------------------------------
  // Validation

  /** Python truthiness of an optional form value: present and not empty. */
  predicate Given(field: Option<string>) {
    field.Some? && field.value != ""
  }

  /** An uploaded file is truthy when it has a file name. */
  predicate ImageGiven(image: Option<Upload>) {
    image.Some? && image.value.filename != ""
  }

  /** A form value is falsy exactly when it is absent or empty; an upload, when it is absent or has no file name. */
  lemma Falsy(field: Option<string>, image: Option<Upload>)
    ensures !Given(field) <==> field == None || field == Some("")
    ensures !ImageGiven(image) <==> image == None || image.value.filename == ""
  {
  }

  /** `(request.form.get('texto') or "").strip()`. */
  function FormText(form: Form): (texto: string)
    ensures texto == [] <==> form.texto.None? || AllSpace(form.texto.value)
  {
    Strip(form.texto.GetOr(""))
  }

  predicate AnySelectorOrImage(form: Form) {
    Given(form.examen) || Given(form.seccion) || Given(form.pregunta) || ImageGiven(form.image)
  }

  predicate AllSelectors(form: Form) {
    Given(form.examen) && Given(form.seccion) && Given(form.pregunta)
  }

  /**
   * The three checks, in order. A submission passes exactly when it is text
   * alone, or no text and at least one selector or an image, where an exam
   * comes with both a section and a question.
   */
  function Validate(texto: string, form: Form): (r: Option<Message>)
    ensures r == Some(MixedInput) <==> texto != "" && AnySelectorOrImage(form)
    ensures r == Some(NothingGiven) <==> texto == "" && !AnySelectorOrImage(form)
    ensures r == Some(ExamIncomplete) <==>
      texto == "" && Given(form.examen) && !(Given(form.seccion) && Given(form.pregunta))
    ensures r == None <==>
      || (texto != "" && !AnySelectorOrImage(form))
      || (texto == "" && AnySelectorOrImage(form) && (Given(form.examen) ==> AllSelectors(form)))
  {
    if texto != "" && AnySelectorOrImage(form) then Some(MixedInput)
    else if !(texto != "" || AnySelectorOrImage(form)) then Some(NothingGiven)
    else if Given(form.examen) && !(Given(form.seccion) && Given(form.pregunta)) then Some(ExamIncomplete)
    else None
  }

  // ---------------------------------------------------------------------------
  // Snippets from match metadata

  /** `meta.get('text') or meta.get('answer')`, kept only when truthy: `text` wins over `answer`. */
  function Pick(meta: Metadata): (r: Option<string>)
    ensures r.Some? <==> Given(meta.text) || Given(meta.answer)
    ensures Given(meta.text) ==> r == meta.text
    ensures !Given(meta.text) && Given(meta.answer) ==> r == meta.answer
  {
    if Given(meta.text) then meta.text
    else if Given(meta.answer) then meta.answer
    else None
  }

  /**
   * The similarity tier's comprehension: one snippet per match that has a
   * truthy `text` or `answer`, in match order. No snippet is empty.
   */
  function SimilarSnippets(matches: seq<Metadata>): (r: seq<string>)
    ensures |r| <= |matches|
    ensures forall k :: 0 <= k < |r| ==> r[k] != ""
  {
    if matches == [] then []
    else
      var head := Pick(matches[0]);
      (if head.Some? then [head.value] else []) + SimilarSnippets(matches[1..])
  }

  // ---------------------------------------------------------------------------
  // The three retrieval tiers

  /**
   * The exact query, built only when exam, section and question are all
   * given and `int()` accepts both the exam and the question number.
   */
  function ExactQueryFor(form: Form): (q: Option<ExactQuery>)
    ensures q.Some? <==>
      AllSelectors(form) && IntLiteral(form.examen.value).Some? && IntLiteral(form.pregunta.value).Some?
    ensures q.Some? ==>
      && q.value.topK == 1
      && Some(q.value.filter.exam) == IntLiteral(form.examen.value)
      && q.value.filter.section == form.seccion.value
      && Some(q.value.filter.question) == IntLiteral(form.pregunta.value)
  {
    if AllSelectors(form) then
      match (IntLiteral(form.examen.value), IntLiteral(form.pregunta.value))
      case (Some(exam), Some(question)) =>
        Some(ExactQuery(ExactTopK, ExactFilter(exam, form.seccion.value, question)))
      case _ => None
    else None
  }

  /**
   * Tier 1: at most one snippet, from the first match of the exact query.
   * An exception, no match or a match without `text`/`answer` all give none.
   */
  function ExactTier(form: Form, services: Services): (r: Stage)
    ensures |r.steps| <= 1 && forall k :: 0 <= k < |r.steps| ==> r.steps[k] != ""
    ensures r.calls == if ExactQueryFor(form).Some? then [ExactCall(ExactQueryFor(form).value)] else []
    ensures r.steps != [] <==>
      && ExactQueryFor(form).Some?
      && services.exactQuery(ExactQueryFor(form).value).Matches?
      && services.exactQuery(ExactQueryFor(form).value).matches != []
      && Pick(services.exactQuery(ExactQueryFor(form).value).matches[0]).Some?
    ensures r.steps != [] ==>
      Some(r.steps[0]) == Pick(services.exactQuery(ExactQueryFor(form).value).matches[0])
  {
    match ExactQueryFor(form)
    case None => Stage([], [])
    case Some(query) =>
      var steps :=
        match services.exactQuery(query)
        case QueryRaised => []
        case Matches(ms) =>
          if ms == [] then [] else match Pick(ms[0]) case Some(s) => [s] case None => [];
      Stage(steps, [ExactCall(query)])
  }

  /** The image model embeds the upload exactly when an image is given and the text is empty. */
  function EmbeddingFor(texto: string, image: Option<Upload>): (req: EmbeddingRequest)
    ensures req.model == ImageEmbedding <==> ImageGiven(image) && texto == ""
    ensures req.model == ImageEmbedding ==> req.input == ImageInput(image.value.content)
    ensures req.model == TextEmbedding ==> req.input == TextInput(texto)
  {
    if ImageGiven(image) && texto == "" then EmbeddingRequest(ImageEmbedding, ImageInput(image.value.content))
    else EmbeddingRequest(TextEmbedding, TextInput(texto))
  }

  /**
   * Tier 2: embed, then query the nearest five with the returned vector.
   * Either call raising leaves no snippets; otherwise the snippets are
   * those of the matches.
   */
  function SimilarityTier(form: Form, services: Services): (r: Stage)
    ensures |r.calls| >= 1 && r.calls[0] == EmbedCall(EmbeddingFor(FormText(form), form.image))
    ensures |r.calls| <= 2
    ensures |r.calls| == 2 <==> services.embed(EmbeddingFor(FormText(form), form.image)).Embedded?
    ensures |r.calls| == 2 ==>
      r.calls[1] == VectorCall(VectorQuery(services.embed(EmbeddingFor(FormText(form), form.image)).vector, SimilarTopK))
    ensures forall k :: 0 <= k < |r.steps| ==> r.steps[k] != ""
    ensures r.steps ==
      if |r.calls| == 2 && services.vectorQuery(r.calls[1].nearest).Matches?
      then SimilarSnippets(services.vectorQuery(r.calls[1].nearest).matches)
      else []
  {
    var request := EmbeddingFor(FormText(form), form.image);
    match services.embed(request)
    case EmbedRaised => Stage([], [EmbedCall(request)])
    case Embedded(vector) =>
      var query := VectorQuery(vector, SimilarTopK);
      var steps :=
        match services.vectorQuery(query)
        case QueryRaised => []
        case Matches(ms) => SimilarSnippets(ms);
      Stage(steps, [EmbedCall(request), VectorCall(query)])
  }

  /**
   * The tiers in priority order. Whatever reaches formatting is never
   * empty: a tier's snippets, or the single fallback extract.
   */
  function Retrieve(form: Form, services: Services): (r: Retrieval)
    ensures r.Retrieved? ==> |r.steps| >= 1
    ensures r.Exhausted? <==>
      && ExactTier(form, services).steps == []
      && SimilarityTier(form, services).steps == []
      && services.randomSummary.FetchRaised?
  {
    var exact := ExactTier(form, services);
    if exact.steps != [] then Retrieved(exact.steps, exact.calls)
    else
      var similar := SimilarityTier(form, services);
      var calls := exact.calls + similar.calls;
      if similar.steps != [] then Retrieved(similar.steps, calls)
      else
        var fetched := calls + [FetchCall(SummaryTimeout)];
        match services.randomSummary
        case FetchRaised => Exhausted(fetched)
        case Fetched(extract) => Retrieved([extract.GetOr(DefaultExtract())], fetched)
  }

  // ---------------------------------------------------------------------------
  // Composition

  /** One `- s` line per snippet, in order. */
  function Bullets(steps: seq<string>): (lines: seq<string>)
    ensures |lines| == |steps|
    ensures forall k :: 0 <= k < |steps| ==> lines[k] == "- " + steps[k]
  {
    seq(|steps|, k requires 0 <= k < |steps| => "- " + steps[k])
  }

  /** What the fallback snippet is when the summary has no `extract` key. */
  function DefaultExtract(): (s: string)
    ensures s != ""
  {
    "Lo siento, nada"
  }

  /**
   * The fixed opening of the formatter's system message, up to the blank
   * line that ends it, held as short adjacent pieces of one line.
   */
  function InstructionPieces(): seq<string> {
    [
      "Eres un formateador ", "HTML muy estricto. ", "Toma estas frases y ", "devuélvelas como una ",
      "lista ordenada ", "(<ol><li>…</li></ol>) ", "en español, sin texto ", "adicional. Usa ",
      "siempre los ", "delimitadores LaTeX ", "\\(…\\) para las ", "fórmulas."
    ]
  }

  /** The fixed instruction: it opens with its first piece. */
  function InstructionText(): (r: string)
    ensures InstructionPieces()[0] <= r
  {
    Concat(InstructionPieces())
  }

  /** No piece of the fixed instruction holds a newline. */
  lemma InstructionPiecesSingleLine()
    ensures forall i :: 0 <= i < |InstructionPieces()| ==> SingleLine(InstructionPieces()[i])
  {
    var pieces := InstructionPieces();
    assert SingleLine(pieces[0]) && SingleLine(pieces[1]) && SingleLine(pieces[2]) && SingleLine(pieces[3]);
    assert SingleLine(pieces[4]) && SingleLine(pieces[5]) && SingleLine(pieces[6]) && SingleLine(pieces[7]);
    assert SingleLine(pieces[8]) && SingleLine(pieces[9]) && SingleLine(pieces[10]) && SingleLine(pieces[11]);
  }

  /** The fixed instruction is a single line. */
  lemma InstructionSingleLine()
    ensures '\n' !in InstructionText()
  {
    InstructionPiecesSingleLine();
    ConcatSingleLine(InstructionPieces());
  }

  /** An instruction, a blank line, then the bullet lines of the snippets. */
  function Prompt(instruction: string, snippets: seq<string>): (p: string)
    ensures |p| >= |instruction| + 2 && p[..|instruction| + 2] == instruction + "\n\n"
  {
    instruction + "\n\n" + JoinLines(Bullets(snippets))
  }

  /** The system message of the formatting call. */
  function SystemMessage(request: ChatRequest): (m: string)
    ensures InstructionText() + "\n\n" <= m
  {
    Prompt(InstructionText(), request.snippets)
  }

  /** The user message of the formatting call. */
  function UserMessage(request: ChatRequest): (m: string)
    ensures m != ""
  {
    "Por favor formatea la lista."
  }

  /** Python's `f"{value}"` of an optional form field: an absent one prints as `None`. */
  function Show(field: Option<string>): string {
    match field
    case Some(v) => v
    case None => "None"
  }

  /** The labelled echo of the inputs, in the order Enunciado, Examen, Sección, Pregunta nº. */
  function Echo(texto: string, form: Form): string {
    "<p><strong>Enunciado:</strong> " + texto + "</p>"
    + "<p><strong>Examen:</strong> " + Show(form.examen) + "</p>"
    + "<p><strong>Sección:</strong> " + Show(form.seccion) + "</p>"
    + "<p><strong>Pregunta nº:</strong> " + Show(form.pregunta) + "</p>"
  }

  /** The decorative mark that closes every 200 body. */
  function ClosingMark(): string {
    " 🤌"
  }

  /** The 200 body: the echo, then the formatted list, then the closing mark. */
  function Fragment(texto: string, form: Form, formattedList: string): string {
    Echo(texto, form) + formattedList + ClosingMark()
  }

  /** The formatting call on the retrieved snippets, and the answer built from its reply. */
  function Format(texto: string, form: Form, steps: seq<string>, calls: seq<Call>, services: Services): (h: Handled)
    ensures h.calls == calls + [ChatCall(ChatRequest(Gpt4oMini, steps))]
  {
    var request := ChatRequest(Gpt4oMini, steps);
    match services.chat(request)
    case ChatRaised(e) => Handled(Err(500, FormatError(e)), calls + [ChatCall(request)])
    case Replied(content) => Handled(Ok(Fragment(texto, form, Strip(content))), calls + [ChatCall(request)])
  }

  /** The whole policy: the answer to a form, given what each service would answer. */
  function Respond(form: Form, services: Services): (h: Handled)
    ensures h.outcome.Err? ==> h.outcome.status == 400 || h.outcome.status == 500
  {
    var texto := FormText(form);
    match Validate(texto, form)
    case Some(rejection) => Handled(Err(400, rejection), [])
    case None =>
      match Retrieve(form, services)
      case Exhausted(calls) => Handled(Err(500, Message.NoData), calls)
      case Retrieved(steps, calls) => Format(texto, form, steps, calls, services)
  }

  // ---------------------------------------------------------------------------
  // The handler

  /** The exact lookup (block 4a): an `int()` failure or an exception leaves no snippet. */
  method ExactLookup(form: Form, services: Services) returns (steps: seq<string>, calls: seq<Call>)
    ensures Stage(steps, calls) == ExactTier(form, services)
  {
    steps, calls := [], [];
    var exact := ExactQueryFor(form);
    if exact.Some? {
      calls := [ExactCall(exact.value)];
      var result := services.exactQuery(exact.value);
      if result.Matches? && result.matches != [] {
        var snippet := Pick(result.matches[0]);
        if snippet.Some? {
          steps := [snippet.value];
        }
      }
    }
  }

  /** The similarity lookup (block 4b): either call raising leaves no snippets. */
  method SimilarityLookup(form: Form, services: Services) returns (steps: seq<string>, calls: seq<Call>)
    ensures Stage(steps, calls) == SimilarityTier(form, services)
  {
    steps := [];
    var request := EmbeddingFor(FormText(form), form.image);
    calls := [EmbedCall(request)];
    var embedding := services.embed(request);
    if embedding.Embedded? {
      var query := VectorQuery(embedding.vector, SimilarTopK);
      calls := calls + [VectorCall(query)];
      var result := services.vectorQuery(query);
      if result.Matches? {
        steps := SimilarSnippets(result.matches);
      }
    }
  }

  /**
   * The handler as a staged pipeline: early returns on validation, the local
   * snippet list `rawSteps` reassigned by each tier, then formatting. It
   * makes the calls `calls` and answers `outcome`, exactly as `Respond` says.
   */
  method Preguntar(form: Form, services: Services) returns (outcome: Outcome, calls: seq<Call>)
    ensures Handled(outcome, calls) == Respond(form, services)
  {
    var texto := FormText(form);
    var rejection := Validate(texto, form);
    if rejection.Some? {
      return Err(400, rejection.value), [];
    }

    // 4a) exact lookup
    var rawSteps;
    rawSteps, calls := ExactLookup(form, services);

    // 4b) similarity lookup, only if the exact lookup gave nothing
    if rawSteps == [] {
      var similarCalls;
      rawSteps, similarCalls := SimilarityLookup(form, services);
      calls := calls + similarCalls;
    }

    // 4c) random-summary fallback, only if both lookups gave nothing
    if rawSteps == [] {
      calls := calls + [FetchCall(SummaryTimeout)];
      var summary := services.randomSummary;
      if summary.FetchRaised? {
        return Err(500, Message.NoData), calls;
      }
      rawSteps := [summary.extract.GetOr(DefaultExtract())];
    }
    assert Retrieve(form, services) == Retrieved(rawSteps, calls);

    // 4d) formatting through the chat service
    var request := ChatRequest(Gpt4oMini, rawSteps);
    calls := calls + [ChatCall(request)];
    var reply := services.chat(request);
    if reply.ChatRaised? {
      return Err(500, FormatError(reply.error)), calls;
    }

    // 4e) the answer
    outcome := Ok(Fragment(texto, form, Strip(reply.content)));
  }
}
