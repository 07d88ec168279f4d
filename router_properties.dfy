/**
 * What the question handler promises, stated over `Router.Respond` (and
 * so, through `Router.Preguntar`'s postcondition, over the handler itself):
 * which submissions are refused and with which message, which tier
 * supplies the snippets, in which order the services are called, and how
 * the prompt and the answer are put together.
 */
module RouterProperties {
  import opened Wrappers
  import opened PyStr
  import opened PyInt
  import opened Collaborators
  import opened Router

  // ---------------------------------------------------------------------------
  // Validation

  /** A refusal is exactly a validation failure, it is a 400, and no service has been called. */
  lemma RefusedBeforeAnyCall(form: Form, services: Services)
    ensures var h := Respond(form, services);
      (h.outcome.Err? && h.outcome.status == 400) <==> Validate(FormText(form), form).Some?
    ensures var h := Respond(form, services);
      Validate(FormText(form), form).Some? ==> h.calls == [] && h.outcome.message == Validate(FormText(form), form).value
    ensures Validate(FormText(form), form).None? ==> |Respond(form, services).calls| >= 2
  {
  }

  /** Text together with any selector or an image is refused with the conflict message. */
  lemma MixedInputConflict(form: Form, services: Services)
    ensures Respond(form, services).outcome == Err(400, MixedInput) <==>
      form.texto.Some? && !AllSpace(form.texto.value) && AnySelectorOrImage(form)
  {
  }

  /** Nothing at all, where text that is only whitespace counts as nothing, is refused. */
  lemma EmptySubmission(form: Form, services: Services)
    ensures Respond(form, services).outcome == Err(400, NothingGiven) <==>
      (form.texto.None? || AllSpace(form.texto.value)) && !AnySelectorOrImage(form)
  {
  }

  /** Text made only of whitespace is handled exactly as if no text had been sent. */
  lemma WhitespaceTextIsAbsent(form: Form, services: Services)
    requires form.texto.Some? && AllSpace(form.texto.value)
    ensures Respond(form, services) == Respond(form.(texto := None), services)
  {
    var absent := form.(texto := None);
    assert FormText(form) == FormText(absent) == "";
    assert ExactTier(form, services) == ExactTier(absent, services);
    assert SimilarityTier(form, services) == SimilarityTier(absent, services);
    assert Retrieve(form, services) == Retrieve(absent, services);
    assert Validate("", form) == Validate("", absent);
    assert Echo("", form) == Echo("", absent);
  }

  /** An exam needs both a section and a question; without text that is the only other refusal. */
  lemma ExamNeedsSectionAndQuestion(form: Form, services: Services)
    ensures Respond(form, services).outcome == Err(400, ExamIncomplete) <==>
      && FormText(form) == ""
      && Given(form.examen)
      && !(Given(form.seccion) && Given(form.pregunta))
  {
  }

  /**
   * A section or a question without an exam passes validation and, with no
   * exact lookup attempted, goes straight to the similarity tier.
   */
  lemma SelectorWithoutExamProceeds(form: Form, services: Services)
    requires FormText(form) == "" && !Given(form.examen)
    requires Given(form.seccion) || Given(form.pregunta)
    ensures var h := Respond(form, services);
      |h.calls| >= 2 && h.calls[0] == EmbedCall(EmbeddingFor("", form.image))
  {
  }

  // ---------------------------------------------------------------------------
  // The tiers

  /**
   * The exact lookup is the first call exactly when validation passes, all
   * three selectors are given and `int()` accepts the exam and the
   * question; it then asks for one match filtered by the three values.
   */
  lemma ExactQueryOnlyWithAllSelectors(form: Form, services: Services)
    ensures var h := Respond(form, services);
      (|h.calls| >= 1 && h.calls[0].ExactCall?) <==>
        Validate(FormText(form), form).None? && ExactQueryFor(form).Some?
    ensures var h := Respond(form, services);
      |h.calls| >= 1 && h.calls[0].ExactCall? ==>
        && AllSelectors(form)
        && h.calls[0].exact.topK == 1
        && IntLiteral(form.examen.value) == Some(h.calls[0].exact.filter.exam)
        && h.calls[0].exact.filter.section == form.seccion.value
        && IntLiteral(form.pregunta.value) == Some(h.calls[0].exact.filter.question)
  {
    if Validate(FormText(form), form).None? {
      var exact := ExactTier(form, services);
      var similar := SimilarityTier(form, services);
      if exact.steps != [] {
        assert Respond(form, services).calls == exact.calls + [ChatCall(ChatRequest(Gpt4oMini, exact.steps))];
      } else {
        assert Respond(form, services).calls[..|exact.calls| + 1] == exact.calls + [similar.calls[0]];
      }
    }
  }

  /**
   * A non-integer exam or question is not an error: the exact lookup is
   * skipped and the similarity tier, embedding the (empty) text or the
   * image, is the first call.
   */
  lemma NonIntegerSelectorFallsThrough(form: Form, services: Services)
    requires FormText(form) == "" && AllSelectors(form)
    requires IntLiteral(form.examen.value).None? || IntLiteral(form.pregunta.value).None?
    ensures var h := Respond(form, services);
      |h.calls| >= 2 && h.calls[0] == EmbedCall(EmbeddingFor("", form.image))
  {
  }

  /**
   * An exact hit is the whole retrieval: the formatter is called next, on
   * that one snippet, which is the first match's `text`, else its `answer`.
   */
  lemma ExactHitSkipsOtherTiers(form: Form, services: Services)
    requires Validate(FormText(form), form).None?
    requires ExactTier(form, services).steps != []
    ensures var h := Respond(form, services);
      var q := ExactQueryFor(form).value;
      && h.calls == [ExactCall(q), ChatCall(ChatRequest(Gpt4oMini, ExactTier(form, services).steps))]
      && Some(h.calls[1].chat.snippets[0]) == Pick(services.exactQuery(q).matches[0])
  {
  }

  /**
   * Which tier's snippets reach formatting: the exact tier's if any, else
   * the similarity tier's if any, else the fallback's single extract; and
   * the calls each case has made.
   */
  lemma TierPriority(form: Form, services: Services)
    ensures var exact := ExactTier(form, services);
      exact.steps != [] ==> Retrieve(form, services) == Retrieved(exact.steps, exact.calls)
    ensures var exact := ExactTier(form, services);
      var similar := SimilarityTier(form, services);
      exact.steps == [] && similar.steps != [] ==>
        Retrieve(form, services) == Retrieved(similar.steps, exact.calls + similar.calls)
    ensures var exact := ExactTier(form, services);
      var similar := SimilarityTier(form, services);
      exact.steps == [] && similar.steps == [] && services.randomSummary.Fetched? ==>
        Retrieve(form, services) ==
          Retrieved([services.randomSummary.extract.GetOr(DefaultExtract())],
                    exact.calls + similar.calls + [FetchCall(SummaryTimeout)])
  {
  }

  /**
   * A similarity hit is the rest of the retrieval: after the exact tier's
   * calls come the embedding, the top-5 query with the returned vector, and
   * the formatter on the usable matches' snippets.
   */
  lemma SimilarityHit(form: Form, services: Services, v: seq<real>, ms: seq<Metadata>)
    requires Validate(FormText(form), form).None?
    requires ExactTier(form, services).steps == []
    requires services.embed(EmbeddingFor(FormText(form), form.image)) == Embedded(v)
    requires services.vectorQuery(VectorQuery(v, SimilarTopK)) == Matches(ms)
    requires SimilarSnippets(ms) != []
    ensures Respond(form, services).calls ==
      ExactTier(form, services).calls + [
        EmbedCall(EmbeddingFor(FormText(form), form.image)),
        VectorCall(VectorQuery(v, SimilarTopK)),
        ChatCall(ChatRequest(Gpt4oMini, SimilarSnippets(ms)))]
  {
  }

  /**
   * The similarity tier runs exactly when the exact tier yielded nothing,
   * and then embeds with the image model exactly when an image is given and
   * the text is empty.
   */
  lemma SimilarityOnlyAfterExactMiss(form: Form, services: Services)
    requires Validate(FormText(form), form).None?
    ensures var h := Respond(form, services);
      var n := |ExactTier(form, services).calls|;
      (|h.calls| > n && h.calls[n].EmbedCall?) <==> ExactTier(form, services).steps == []
    ensures var h := Respond(form, services);
      var n := |ExactTier(form, services).calls|;
      |h.calls| > n && h.calls[n].EmbedCall? ==>
        (h.calls[n].embedding.model == ImageEmbedding <==> ImageGiven(form.image) && FormText(form) == "")
  {
    var exact := ExactTier(form, services);
    var similar := SimilarityTier(form, services);
    if exact.steps == [] {
      assert Respond(form, services).calls[..|exact.calls| + 1] == exact.calls + [similar.calls[0]];
    } else {
      assert Respond(form, services).calls == exact.calls + [ChatCall(ChatRequest(Gpt4oMini, exact.steps))];
    }
  }

  /** The fallback fetch happens exactly when validation passed and both lookups yielded nothing. */
  lemma FallbackOnlyWhenTiersEmpty(form: Form, services: Services)
    ensures FetchCall(SummaryTimeout) in Respond(form, services).calls <==>
      && Validate(FormText(form), form).None?
      && ExactTier(form, services).steps == []
      && SimilarityTier(form, services).steps == []
  {
  }

  /**
   * After both lookups yielded nothing, a successful fetch gives the single
   * snippet the formatter sees: the extract, or the fixed apology when the
   * reply has none.
   */
  lemma FallbackSnippet(form: Form, services: Services)
    requires Validate(FormText(form), form).None?
    requires ExactTier(form, services).steps == [] && SimilarityTier(form, services).steps == []
    requires services.randomSummary.Fetched?
    ensures var h := Respond(form, services);
      && |h.calls| >= 2
      && h.calls[|h.calls| - 2] == FetchCall(5)
      && h.calls[|h.calls| - 1] == ChatCall(ChatRequest(Gpt4oMini, [services.randomSummary.extract.GetOr("Lo siento, nada")]))
  {
  }

  /** The only 500 without a formatter call: every tier came up empty and the fetch failed. */
  lemma FetchFailureIs500(form: Form, services: Services)
    ensures Respond(form, services).outcome == Err(500, Message.NoData) <==>
      && Validate(FormText(form), form).None?
      && ExactTier(form, services).steps == []
      && SimilarityTier(form, services).steps == []
      && services.randomSummary.FetchRaised?
  {
  }

  // ---------------------------------------------------------------------------
  // The similarity tier's snippet list

  /** The snippets of consecutive runs of matches are consecutive: match order is kept. */
  lemma {:induction false} SnippetsAppend(a: seq<Metadata>, b: seq<Metadata>)
    ensures SimilarSnippets(a + b) == SimilarSnippets(a) + SimilarSnippets(b)
  {
    if a == [] {
      assert a + b == b;
    } else {
      assert (a + b)[0] == a[0] && (a + b)[1..] == a[1..] + b;
      SnippetsAppend(a[1..], b);
    }
  }

  /** A string is a snippet exactly when some match's `text`, else `answer`, is that string. */
  lemma {:induction false} SnippetsMembership(matches: seq<Metadata>, s: string)
    ensures s in SimilarSnippets(matches) <==> exists k :: 0 <= k < |matches| && Pick(matches[k]) == Some(s)
  {
    if matches != [] {
      SnippetsMembership(matches[1..], s);
      if s in SimilarSnippets(matches[1..]) {
        var k :| 0 <= k < |matches[1..]| && Pick(matches[1..][k]) == Some(s);
        assert Pick(matches[k + 1]) == Some(s);
      }
      if exists k :: 0 <= k < |matches| && Pick(matches[k]) == Some(s) {
        var k :| 0 <= k < |matches| && Pick(matches[k]) == Some(s);
        if k > 0 {
          assert Pick(matches[1..][k - 1]) == Some(s);
        }
      }
    }
  }

  /** When every match has a `text` or an `answer`, there is one snippet per match, in match order. */
  lemma {:induction false} SnippetsAllKept(matches: seq<Metadata>)
    requires forall k :: 0 <= k < |matches| ==> Pick(matches[k]).Some?
    ensures |SimilarSnippets(matches)| == |matches|
    ensures forall k :: 0 <= k < |matches| ==> Some(SimilarSnippets(matches)[k]) == Pick(matches[k])
  {
    if matches != [] {
      SnippetsAllKept(matches[1..]);
      var r := SimilarSnippets(matches);
      assert r == [Pick(matches[0]).value] + SimilarSnippets(matches[1..]);
      forall k | 0 <= k < |matches|
        ensures Some(r[k]) == Pick(matches[k])
      {
        if k > 0 {
          assert r[k] == SimilarSnippets(matches[1..])[k - 1];
          assert matches[1..][k - 1] == matches[k];
        }
      }
    }
  }

  /** Matches with neither a `text` nor an `answer` contribute nothing. */
  lemma {:induction false} SnippetsDropUnusable(matches: seq<Metadata>)
    requires forall k :: 0 <= k < |matches| ==> Pick(matches[k]).None?
    ensures SimilarSnippets(matches) == []
  {
    if matches != [] {
      assert Pick(matches[0]).None?;
      assert forall k :: 0 <= k < |matches[1..]| ==> matches[1..][k] == matches[k + 1];
      SnippetsDropUnusable(matches[1..]);
    }
  }

  /** When the store returns at most the five matches it is asked for, there are at most five snippets. */
  lemma SimilarityAtMostTopK(form: Form, services: Services)
    requires forall q :: services.vectorQuery(q).Matches? ==> |services.vectorQuery(q).matches| <= q.topK
    ensures |SimilarityTier(form, services).steps| <= SimilarTopK
  {
  }

  // ---------------------------------------------------------------------------
  // Formatting and the answer

  /**
   * The prompt is, line by line, the instruction, a blank line and one
   * `- s` line per snippet in list order.
   */
  lemma PromptIsLines(instruction: string, snippets: seq<string>)
    requires snippets != []
    ensures Prompt(instruction, snippets) == JoinLines([instruction, ""] + Bullets(snippets))
  {
  }

  /** Read back line by line, a prompt over snippets without newlines gives back the instruction and each bullet. */
  lemma PromptLines(instruction: string, snippets: seq<string>)
    requires '\n' !in instruction
    requires snippets != []
    requires forall k :: 0 <= k < |snippets| ==> '\n' !in snippets[k]
    ensures SplitLines(Prompt(instruction, snippets)) == [instruction, ""] + Bullets(snippets)
  {
    var bullets := Bullets(snippets);
    forall k | 0 <= k < |bullets|
      ensures '\n' !in bullets[k]
    {
      assert bullets[k] == "- " + snippets[k];
    }
    PromptIsLines(instruction, snippets);
    SplitJoin([instruction, ""] + bullets);
  }

  /**
   * Read back line by line, the formatter's system message over snippets
   * without newlines gives back the instruction, a blank line and each bullet.
   */
  lemma SystemMessageLines(request: ChatRequest)
    requires request.snippets != []
    requires forall k :: 0 <= k < |request.snippets| ==> '\n' !in request.snippets[k]
    ensures SplitLines(SystemMessage(request)) == [InstructionText(), ""] + Bullets(request.snippets)
  {
    InstructionSingleLine();
    PromptLines(InstructionText(), request.snippets);
  }

  /** A formatter failure is a 500 whose body is `Error de formateo: ` and the error text. */
  lemma FormatterFailure(form: Form, services: Services, e: string)
    ensures var h := Respond(form, services);
      h.outcome == Err(500, FormatError(e)) <==>
        |h.calls| >= 1 && h.calls[|h.calls| - 1].ChatCall? && services.chat(h.calls[|h.calls| - 1].chat) == ChatRaised(e)
    ensures FormatError(e).Text() == "Error de formateo: " + e
  {
  }

  /**
   * A 200 answer comes from the formatter's reply, stripped, between the
   * echo of the inputs and the closing mark.
   */
  lemma SuccessFragment(form: Form, services: Services)
    ensures var h := Respond(form, services);
      h.outcome.Ok? <==>
        |h.calls| >= 1 && h.calls[|h.calls| - 1].ChatCall? && services.chat(h.calls[|h.calls| - 1].chat).Replied?
    ensures var h := Respond(form, services);
      h.outcome.Ok? ==>
        h.outcome.fragment ==
          Fragment(FormText(form), form, Strip(services.chat(h.calls[|h.calls| - 1].chat).content))
  {
  }

  /** `f"{value}"` prints a present value as itself and an absent one as `None`, so it is empty only for an empty value. */
  lemma ShowField(field: Option<string>)
    ensures field.Some? ==> Show(field) == field.value
    ensures Show(field) == "" <==> field == Some("")
  {
  }

  /** The stripped text appears verbatim right after the first label of the echo. */
  lemma EchoShowsText(texto: string, form: Form)
    ensures var n := |"<p><strong>Enunciado:</strong> "|;
      |Echo(texto, form)| >= n + |texto| && Echo(texto, form)[n..n + |texto|] == texto
  {
  }

  /** The formatted list sits, unchanged, between the echo of the inputs and the closing mark. */
  lemma FragmentRecoversList(texto: string, form: Form, formattedList: string)
    ensures var f := Fragment(texto, form, formattedList);
      var n := |Echo(texto, form)|;
      && |f| == n + |formattedList| + |ClosingMark()|
      && f[..n] == Echo(texto, form)
      && f[n..n + |formattedList|] == formattedList
      && f[n + |formattedList|..] == ClosingMark()
    ensures |ClosingMark()| == 2 && ClosingMark()[0] == ' '
  {
  }

  /** The rank of each kind of call in the handler's fixed order. */
  function Rank(c: Call): nat {
    match c
    case ExactCall(_) => 0
    case EmbedCall(_) => 1
    case VectorCall(_) => 2
    case FetchCall(_) => 3
    case ChatCall(_) => 4
  }

  /** Every call ranks strictly above the ones made before it. */
  predicate InOrder(calls: seq<Call>) {
    forall i, j :: 0 <= i < j < |calls| ==> Rank(calls[i]) < Rank(calls[j])
  }

  /** Every call in `calls` ranks below `bound`. */
  predicate RankedBelow(calls: seq<Call>, bound: nat) {
    forall k :: 0 <= k < |calls| ==> Rank(calls[k]) < bound
  }

  /** Every call in `calls` ranks at least `bound`. */
  predicate RankedFrom(calls: seq<Call>, bound: nat) {
    forall k :: 0 <= k < |calls| ==> bound <= Rank(calls[k])
  }

  lemma InOrderAppend(a: seq<Call>, b: seq<Call>, bound: nat)
    requires InOrder(a) && RankedBelow(a, bound)
    requires InOrder(b) && RankedFrom(b, bound)
    ensures InOrder(a + b)
  {
  }

  lemma InOrderSnoc(calls: seq<Call>, c: Call)
    requires InOrder(calls) && RankedBelow(calls, Rank(c))
    ensures InOrder(calls + [c]) && RankedBelow(calls + [c], Rank(c) + 1)
  {
  }

  /** Each tier's own calls are in order: the exact query alone, then embed before nearest. */
  lemma TierCallsInOrder(form: Form, services: Services)
    ensures InOrder(ExactTier(form, services).calls) && RankedBelow(ExactTier(form, services).calls, 1)
    ensures var similar := SimilarityTier(form, services).calls;
      InOrder(similar) && RankedFrom(similar, 1) && RankedBelow(similar, 3)
  {
  }

  /** The calls of the three tiers, in the order `Retrieve` makes them, all before the formatter's. */
  lemma RetrievalInOrder(form: Form, services: Services)
    ensures InOrder(Retrieve(form, services).calls) && RankedBelow(Retrieve(form, services).calls, 4)
  {
    var exact := ExactTier(form, services);
    var similar := SimilarityTier(form, services);
    TierCallsInOrder(form, services);
    if exact.steps == [] {
      var both := exact.calls + similar.calls;
      InOrderAppend(exact.calls, similar.calls, 1);
      assert RankedBelow(both, 3);
      if similar.steps == [] {
        InOrderSnoc(both, FetchCall(SummaryTimeout));
      }
    }
  }

  /** Calls are made in the order exact, embed, nearest, fetch, chat, each at most once. */
  lemma CallOrder(form: Form, services: Services)
    ensures InOrder(Respond(form, services).calls)
  {
    var texto := FormText(form);
    if Validate(texto, form).None? {
      RetrievalInOrder(form, services);
      var retrieved := Retrieve(form, services);
      if retrieved.Retrieved? {
        InOrderSnoc(retrieved.calls, ChatCall(ChatRequest(Gpt4oMini, retrieved.steps)));
      }
    }
  }

  /** Whenever the formatter is called, it is the last call, and it has at least one snippet to format. */
  lemma FormatterSeesSnippets(form: Form, services: Services)
    ensures var h := Respond(form, services);
      forall k :: 0 <= k < |h.calls| && h.calls[k].ChatCall? ==>
        k == |h.calls| - 1 && h.calls[k].chat.snippets != []
  {
    var texto := FormText(form);
    if Validate(texto, form).None? {
      RetrievalInOrder(form, services);
      var retrieved := Retrieve(form, services);
      if retrieved.Retrieved? {
        InOrderSnoc(retrieved.calls, ChatCall(ChatRequest(Gpt4oMini, retrieved.steps)));
      }
    }
  }
}
