# Question router of the exam-help form

This project models, in Dafny, the `POST /preguntar` handler of a small Flask
service (`app.py`). The handler receives a question as free text, as an
exam/section/question selection, or as an image. It validates that
combination and then collects answer snippets from the first of three tiers
that yields any:

1. an exact metadata lookup in the vector store;
2. an embedding similarity search;
3. a random Wikipedia summary.

It then has a chat model format the snippets as an HTML ordered list, and
answers with the list wrapped in an echo of the inputs.

The services are not modelled by how they work, only by what they answer.
`Collaborators.Services` holds one function per service, from request to
outcome (a value, or "raised"). `Router.Respond` is the whole policy as a
function of the form and those outcomes. It returns the answer (`Ok(fragment)`,
or `Err(status, message)`) together with the trace of service calls made, in
order. That trace is what the "no call before validation", "tier order" and
"fallback only when" properties are stated over.

`Router.Preguntar` is the handler as written: a method that returns early,
reassigns the local snippet list `rawSteps` stage by stage, and is proved equal
to `Respond`. `RouterProperties` proves the handler's promises about `Respond`.

Python semantics the handler relies on are modelled explicitly:

- **Truthiness.** A form value counts as given when it is present and not
  empty. An upload counts as given when its file name is not empty.
- **`str.strip`** uses Python's whitespace set.
- **`int()`** accepts an optional sign and decimal digits, with single
  underscores allowed between digits. It skips surrounding whitespace, but
  not the four information separators U+001C to U+001F, which `str.isspace()`
  does count as whitespace. It refuses more than 4300 digits, the default
  limit.
- **`'\n'.join`** and its inverse `split('\n')` are modelled as functions.
- **`dict.get(key, default)`** uses the default only when the key is missing.
- **`f"{None}"`** prints `None`.

Files:

- `wrappers.dfy`: `Option`.
- `pystr.dfy`: strip, join and split.
- `pyint.dfy`: `int()` and `str()` on integers.
- `collaborators.dfy`: the form, the metadata, the requests, the outcomes and the call trace.
- `router.dfy`: the policy and the handler.
- `router_properties.dfy`: the properties.

Where the code and the design notes of the project differ, the model follows
the code:

- **Absent selectors in the echo.** They appear as `None`, not as an empty
  string, because the code formats Python's `None` into the f-string
  (app.py:309-311).
- **Embedding-service failure.** It is not a 500. The `try` around the
  similarity tier catches it, and the request falls through to the Wikipedia
  fallback (app.py:250-274).
- **The formatter's reply** is used stripped of surrounding whitespace, not
  verbatim (app.py:302).
- **The validation policy** is the loose multi-mode one of this revision, and
  the chat formatter is always called, with no short-circuit for a single
  exact snippet.

## Model

| member | source | states |
|---|---|---|
| PyStr.Strip | app.py:203 | `str.strip()`: the result is no longer than the input, starts and ends with a non-whitespace character, and is empty exactly when the input is all whitespace |
| PyStr.StripUnpadded | app.py:302 | stripping a string that neither starts nor ends with whitespace leaves it unchanged |
| PyStr.StripPadded | app.py:302 | stripping whitespace padding on both sides gives back exactly the padded text |
| PyStr.SplitLines | app.py:292 | the inverse reading of `'\n'.join`: always at least one piece, and no piece holds a newline |
| PyStr.JoinLines | app.py:292 | `'\n'.join(lines)`: the first line starts the result, and a newline ends it when more lines follow; `SplitLines` undoes it (below) |
| PyStr.Concat | app.py:289-291 | `''.join(pieces)`, the way adjacent string literals form one string: the first piece starts it and every piece fits in it |
| PyStr.ConcatSingleLine | app.py:289-291 | joining pieces that hold no newline gives a string that holds none |
| PyStr.JoinSplit | app.py:292 | joining the newline-split pieces of a string with `'\n'` gives back the string |
| PyStr.SplitJoin | app.py:292 | splitting the `'\n'`-join of at least one newline-free line gives back exactly those lines |
| PyInt.IntLiteral | app.py:234-236 | `int(s)` on the selector: all-whitespace text is rejected, and accepted text holds no information separator and, once stripped, ends in a digit |
| PyInt.ParseDigits | app.py:234-236 | the digit part is accepted exactly when it is well formed and has at most 4300 digits |
| PyInt.ParseStripped | app.py:234-236 | the stripped literal: an optional sign, then the digit part; whatever is accepted ends in a digit |
| PyInt.Render | app.py:234-236 | `str(n)`, the partner of `int()`: never empty, and starts with `-` exactly when `n` is negative |
| PyInt.ParseRender | app.py:234-236 | the stripped decimal rendering `str(n)` of any integer of at most 4300 digits parses back to `n` |
| PyInt.IntLiteralRoundTrip | app.py:234-236 | `int(pre + str(n) + post) == n` for any integer `n` of at most 4300 digits, with `pre` and `post` made of the whitespace `int()` skips |
| PyInt.SeparatorRejected | app.py:234-246 | an information separator (U+001C to U+001F) anywhere in the selector makes `int()` fail |
| PyInt.TooManyDigitsRejected | app.py:234-246 | a well-formed digit string with more than 4300 digits makes `int()` fail |
| PyInt.IntLiteralRejects | app.py:234-236 | a letter, a decimal point or an inner space in the stripped selector makes `int()` fail |
| Router.Given | app.py:210-228 | Python truthiness of a form value: present and not empty |
| Router.ImageGiven | app.py:207-217 | an uploaded file is truthy exactly when it has a non-empty file name |
| Router.Falsy | app.py:207-228 | Python truthiness as the handler tests it: a form value is falsy exactly when absent or the empty string, an upload exactly when absent or without a file name |
| Router.Message.Text | app.py:211-304 | the body of a formatting 500 is `Error de formateo: ` followed by the error text unchanged; the other four bodies are the source's fixed sentences |
| Router.FormText | app.py:203 | the text is empty exactly when the field is absent or only whitespace |
| Router.Validate | app.py:209-224 | the three checks in order, each as an if-and-only-if: conflict exactly for text plus a selector or image, nothing-given exactly for no text and nothing else, exam-incomplete exactly for no text and an exam lacking a section or question, and acceptance exactly otherwise |
| Router.Pick | app.py:241-242 | `text or answer`: a snippet exists exactly when one of them is non-empty, and `text` wins over `answer` |
| Router.SimilarSnippets | app.py:268-272 | the comprehension keeps at most one snippet per match, and never an empty one |
| Router.ExactQueryFor | app.py:228-237 | the exact query exists exactly when exam, section and question are all given and `int()` accepts exam and question; it asks for one match filtered by those three values |
| Router.ExactTier | app.py:227-246 | at most one non-empty snippet; the query call is made exactly when the query exists; a snippet comes exactly from a first match with `text` or `answer`, and an exception or empty reply leaves none |
| Router.EmbeddingFor | app.py:251-261 | the image model embeds the upload exactly when an image is given and the text is empty; otherwise the text model embeds the text |
| Router.SimilarityTier | app.py:249-274 | the embed call always comes first; the top-5 nearest query with the returned vector is the second call exactly when the embedding succeeds; the snippets are exactly those of the query's matches when it succeeds, and none otherwise |
| Router.Retrieve | app.py:227-285 | whatever reaches formatting is non-empty; the request fails for lack of data exactly when both lookups are empty and the fetch raises |
| Router.DefaultExtract | app.py:283 | the fallback snippet when the summary has no `extract` (`Lo siento, nada`) is not empty, so it survives as a usable snippet |
| Router.Bullets | app.py:292 | one `- s` line per snippet, same count, same order |
| Router.InstructionText | app.py:289-291 | the fixed instruction of the system message, built from the source's adjacent literals, starting `Eres un formateador ` |
| Router.InstructionSingleLine | app.py:289-291 | the fixed instruction holds no newline |
| Router.Prompt | app.py:288-293 | an instruction, then a blank line (`\n\n`), then the `'\n'`-joined bullet lines: the instruction and the blank line open it |
| Router.SystemMessage | app.py:288-298 | the system message opens with the fixed instruction and a blank line, ahead of the snippets' bullets |
| Router.UserMessage | app.py:299 | the user message is the fixed, non-empty `Por favor formatea la lista.`, whatever the snippets |
| Router.Show | app.py:309-311 | `f"{value}"` of a form value: the value itself when present, `None` when absent (properties in `ShowField`) |
| Router.Echo | app.py:308-311 | the labelled echo of the stripped text and the three raw selectors, in the order Enunciado, Examen, Sección, Pregunta nº (properties in `EchoShowsText`) |
| Router.ClosingMark | app.py:312 | the mark after the formatted list, a space then the 🤌 sign (properties in `FragmentRecoversList`) |
| Router.Fragment | app.py:307-313 | the 200 body: the echo, the formatted list, then the closing mark (properties in `FragmentRecoversList`) |
| Router.Format | app.py:294-304 | the formatting call is the last call, and it is made on exactly the retrieved snippets |
| Router.Respond | app.py:202-314 | every error the handler returns is a 400 or a 500 |
| Router.ExactLookup | app.py:227-246 | the imperative exact block makes exactly the calls, and yields exactly the snippet list, of `ExactTier` |
| Router.SimilarityLookup | app.py:249-274 | the imperative similarity block makes exactly the calls, and yields exactly the snippet list, of `SimilarityTier` |
| Router.Preguntar | app.py:202-314 | the handler, with its early returns and reassigned `rawSteps`, answers and calls exactly as `Respond` |
| RouterProperties.RefusedBeforeAnyCall | app.py:209-224 | a 400 happens exactly when validation fails; it carries that check's message and no service has been called; a request that passes validation makes at least two calls |
| RouterProperties.MixedInputConflict | app.py:203-214 | the conflict 400 happens exactly when the text is not blank and a selector or an image is given |
| RouterProperties.EmptySubmission | app.py:203-220 | the nothing-given 400 happens exactly when the text is absent or blank and no selector or image is given |
| RouterProperties.WhitespaceTextIsAbsent | app.py:203 | whitespace-only text gets exactly the answer and the calls of an absent text |
| RouterProperties.ExamNeedsSectionAndQuestion | app.py:222-224 | the exam-incomplete 400 happens exactly when there is no text and an exam lacks a section or a question |
| RouterProperties.SelectorWithoutExamProceeds | app.py:216-261 | a section or question without an exam passes validation, and the first call is the embedding of the empty text or the image |
| RouterProperties.ExactQueryOnlyWithAllSelectors | app.py:227-238 | the exact query is the first call exactly when validation passes and all three selectors parse; it is filtered by their values with top_k 1 |
| RouterProperties.NonIntegerSelectorFallsThrough | app.py:234-246 | a non-integer exam or question is no error: the similarity tier's embedding is the first call |
| RouterProperties.ExactHitSkipsOtherTiers | app.py:239-249 | an exact hit is followed directly by the formatting call on that one snippet, `text` before `answer` |
| RouterProperties.TierPriority | app.py:227-285 | the exact tier's snippets reach formatting if there are any, else the similarity tier's, else the single fallback extract; with the calls each case made |
| RouterProperties.SimilarityHit | app.py:249-301 | after an exact miss, a successful embedding and query with usable matches are followed by the formatter on exactly those matches' snippets |
| RouterProperties.SimilarityOnlyAfterExactMiss | app.py:249-261 | the embedding call follows the exact tier exactly when that tier yielded nothing, and it uses the image model exactly when an image is given and the text is empty |
| RouterProperties.FallbackOnlyWhenTiersEmpty | app.py:276-283 | the Wikipedia fetch is made exactly when validation passed and both lookups yielded nothing |
| RouterProperties.FallbackSnippet | app.py:276-301 | after a successful fetch, the formatter gets the single snippet `extract`, or `Lo siento, nada` when the reply has no extract |
| RouterProperties.FetchFailureIs500 | app.py:284-285 | the no-data 500 happens exactly when both lookups are empty and the fetch raises |
| RouterProperties.SnippetsAppend | app.py:268-272 | the comprehension maps consecutive runs of matches to consecutive runs of snippets, so match order is kept |
| RouterProperties.SnippetsMembership | app.py:268-272 | a string is a snippet exactly when some match's `text or answer` is that string |
| RouterProperties.SnippetsAllKept | app.py:268-272 | when every match has `text` or `answer`, there is one snippet per match, the k-th coming from the k-th match |
| RouterProperties.SnippetsDropUnusable | app.py:268-272 | matches with neither `text` nor `answer` give no snippet |
| RouterProperties.SimilarityAtMostTopK | app.py:263-267 | when the store returns no more matches than asked for, there are at most 5 snippets |
| RouterProperties.PromptIsLines | app.py:288-293 | the system prompt is the `'\n'`-join of the instruction, a blank line and one `- s` line per snippet, in order |
| RouterProperties.PromptLines | app.py:288-293 | read back line by line, a prompt over newline-free snippets gives back the instruction, the blank line and every bullet |
| RouterProperties.SystemMessageLines | app.py:288-298 | read back line by line, the formatter's actual system message over newline-free snippets gives back the fixed instruction, the blank line and every bullet |
| RouterProperties.FormatterFailure | app.py:303-304 | the formatting 500 happens exactly when the last call is the chat call and it raises; its body is `Error de formateo: ` followed by the error text |
| RouterProperties.SuccessFragment | app.py:302-314 | a 200 happens exactly when the chat call replies, and its body is the echo, the stripped reply, then the closing mark |
| RouterProperties.ShowField | app.py:309-311 | a present value is echoed as itself, and an echoed value is empty exactly when the field holds the empty string (an absent one prints `None`) |
| RouterProperties.EchoShowsText | app.py:308 | the stripped question text is echoed verbatim, right after the `Enunciado:` label |
| RouterProperties.FragmentRecoversList | app.py:307-313 | the body is the echo, then the formatted list unchanged, then ` 🤌`, each at a fixed place |
| RouterProperties.CallOrder | app.py:227-304 | service calls are made in the order exact query, embedding, nearest query, fetch, chat, each at most once |
| RouterProperties.FormatterSeesSnippets | app.py:276-301 | whenever the chat formatter is called, it is the last call and has at least one snippet |

## Left out

- **HTTP and server plumbing.** Flask routing, the page template with its
  client-side JavaScript, the home route and server start-up are out. They
  are framework and browser code, and `preguntar` never reads them.
- **Environment and configuration.** Environment loading and the
  exam/section/question enable tables are out. Only the page uses them, and
  the handler does not check submitted values against them.
- **What the services compute.** Ranking, embedding values and the language
  model's text come in as the outcomes held in `Services`.
  `Collaborators.FetchResult` names the fetched URL, and the model names are
  given by `Name()`. The timeout is recorded in the call trace.
- **Reading and base64-encoding the image.** The image embedding is
  recorded with the uploaded bytes themselves.
- **Request text.** The chat request is recorded by its model and snippets.
  `Router.SystemMessage` and `Router.UserMessage` give the message texts it
  is sent with.
- **Malformed metadata.** Metadata values that are not strings, and a JSON
  `null` extract, are not modelled. Both are treated as strings or as absent
  keys.
- **Markup escaping.** No HTML escaping happens: the echo inserts the form
  values as they are, which is what the code does.
- **Determinism.** Idempotence of the answer for the same form and outcomes
  needs no lemma, because `Respond` is a function.
- PyInt.IntLiteral: accepts only the ASCII digits `0`-`9`. Python's `int()`
  also accepts other Unicode decimal digits, which a selector value would
  not contain. The 4300-digit limit is the interpreter's default (Python
  3.11 on, and the 3.8 to 3.10 security releases that carry it). A limit
  changed through `sys.set_int_max_str_digits` or the environment, and older
  interpreters without the limit, are not modelled.
- PyStr.Strip: the contract states the ends and the emptiness of the result.
  That the result is the input minus its whitespace ends is proved
  separately in `StripLeftSuffix` and `StripRightPrefix`.
- RouterProperties.SimilarityAtMostTopK: the bound of five snippets holds
  only when the store honours `top_k`. This is a requirement on the
  store's outcomes, since the store is not modelled.
