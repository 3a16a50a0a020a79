/** services/gemini.ts: `generateQuizFromText` without the SDK call. The
    API key, the model's reply, the new quiz's id and the creation time are
    parameters; the function checks the key, cuts the source text to the
    prompt's excerpt, turns a parsed reply into a `Quiz` and maps errors. */
module Gemini {
  import opened Types
  import opened JsStrings
  import opened QuizPlayer

  // ---------------------------------------------------------------------
  // Errors
  // ---------------------------------------------------------------------

  /** A thrown value as the `catch` block sees it: `error.message`, which
      may be undefined, and `error.status`, when the SDK sets one. */
  datatype GenError = GenError(message: Option<string>, status: Option<int>)

  // Messages are built from pieces of at most 40 characters each, which
  // keeps the literal-membership facts the lemmas below need cheap.
  const MissingKeyMessage: string :=
    "API Key is missing. Check your .env " + "file or Netlify settings."
  const PlaceholderKeyMessage: string :=
    "You are using the placeholder API Key." + " Please paste your real key from " + "Google AI Studio."
  const NoResponseMessage: string := "No response from AI"
  const InvalidKeyMessage: string :=
    "Invalid API Key. Please check that " + "you copied it correctly."

  /** A fresh `new Error(message)`: a message and no status. */
  function PlainError(message: string): GenError
  {
    GenError(Some(message), None)
  }

  const InvalidKeyError: GenError := PlainError(InvalidKeyMessage)

  /** The `catch` block's test: the message mentions "400" or the status is 400. */
  predicate Mentions400(e: GenError)
  {
    (e.message.Some? && Contains(e.message.value, "400")) || e.status == Some(400)
  }

  /** The fixed messages do not mention "400". */
  lemma FixedMessagesWithout400()
    ensures !Mentions400(PlainError(MissingKeyMessage))
    ensures !Mentions400(PlainError(PlaceholderKeyMessage))
    ensures !Mentions400(PlainError(NoResponseMessage))
    ensures !Mentions400(InvalidKeyError)
  {
    MissingKeyMessageWithout400();
    PlaceholderKeyMessageWithout400();
    NoResponseMessageWithout400();
    InvalidKeyMessageWithout400();
  }

  lemma MissingKeyMessageWithout400()
    ensures !Contains(MissingKeyMessage, "400")
  {
    MissingKeyPieces();
    NotContainsWithoutChar(MissingKeyMessage, "400", 0);
  }

  /** The character that starts the searched text appears in no piece. */
  lemma MissingKeyPieces()
    ensures '4' !in MissingKeyMessage
  {
    MissingKeyPiece1();
    MissingKeyPiece2();
  }

  lemma MissingKeyPiece1()
    ensures '4' !in "API Key is missing. Check your .env "
  {
  }

  lemma MissingKeyPiece2()
    ensures '4' !in "file or Netlify settings."
  {
  }

  lemma PlaceholderKeyMessageWithout400()
    ensures !Contains(PlaceholderKeyMessage, "400")
  {
    PlaceholderKeyPieces();
    NotContainsWithoutChar(PlaceholderKeyMessage, "400", 0);
  }

  /** The character that starts the searched text appears in no piece. */
  lemma PlaceholderKeyPieces()
    ensures '4' !in PlaceholderKeyMessage
  {
    PlaceholderKeyPiece1();
    PlaceholderKeyPiece2();
    PlaceholderKeyPiece3();
  }

  lemma PlaceholderKeyPiece1()
    ensures '4' !in "You are using the placeholder API Key."
  {
  }

  lemma PlaceholderKeyPiece2()
    ensures '4' !in " Please paste your real key from "
  {
  }

  lemma PlaceholderKeyPiece3()
    ensures '4' !in "Google AI Studio."
  {
  }

  lemma NoResponseMessageWithout400()
    ensures !Contains(NoResponseMessage, "400")
  {
    NotContainsWithoutChar(NoResponseMessage, "400", 0);
  }

  lemma InvalidKeyMessageWithout400()
    ensures !Contains(InvalidKeyMessage, "400")
  {
    InvalidKeyPieces();
    NotContainsWithoutChar(InvalidKeyMessage, "400", 0);
  }

  /** The character that starts the searched text appears in no piece. */
  lemma InvalidKeyPieces()
    ensures '4' !in InvalidKeyMessage
  {
    InvalidKeyPiece1();
    InvalidKeyPiece2();
  }

  lemma InvalidKeyPiece1()
    ensures '4' !in "Invalid API Key. Please check that "
  {
  }

  lemma InvalidKeyPiece2()
    ensures '4' !in "you copied it correctly."
  {
  }

  /** The `catch` block: an error mentioning 400 becomes the invalid-key
      error, any other is rethrown as it is. Either way what leaves it
      no longer mentions 400. */
  function CatchError(e: GenError): (r: GenError)
    ensures !Mentions400(r)
    ensures Mentions400(e) ==> r == InvalidKeyError
    ensures !Mentions400(e) ==> r == e
  {
    FixedMessagesWithout400();
    if Mentions400(e) then InvalidKeyError else e
  }

  /** Passing an error through the `catch` block twice changes nothing more. */
  lemma CatchErrorIdempotent(e: GenError)
    ensures CatchError(CatchError(e)) == CatchError(e)
  {
  }

  // ---------------------------------------------------------------------
  // Key checks
  // ---------------------------------------------------------------------

  const PlaceholderKey: string := "your_google_gemini_key_here"
  const PlaceholderMarker: string := "Your_Actual_Key_Here"

  /** `!apiKey`: the key is undefined or empty. */
  predicate KeyMissing(apiKey: Option<string>)
  {
    apiKey.None? || apiKey.value == ""
  }

  /** The key is the sample value or still holds the sample's marker. */
  predicate IsPlaceholder(key: string)
  {
    key == PlaceholderKey || Contains(key, PlaceholderMarker)
  }

  /** The error the key checks raise, if any: a missing key first, then a
      placeholder key. */
  function KeyError(apiKey: Option<string>): (r: Option<GenError>)
    ensures r == Some(PlainError(MissingKeyMessage)) <==> KeyMissing(apiKey)
    ensures r == Some(PlainError(PlaceholderKeyMessage)) <==> !KeyMissing(apiKey) && IsPlaceholder(apiKey.value)
    ensures r.None? <==> !KeyMissing(apiKey) && !IsPlaceholder(apiKey.value)
  {
    if KeyMissing(apiKey) then Some(PlainError(MissingKeyMessage))
    else if IsPlaceholder(apiKey.value) then Some(PlainError(PlaceholderKeyMessage))
    else None
  }

  // ---------------------------------------------------------------------
  // Prompt
  // ---------------------------------------------------------------------

  /** How much of the source text the prompt quotes. */
  const MaxSourceChars: nat := 15000

  /** `text.slice(0, 15000)` */
  function Excerpt(text: string): (r: string)
    ensures |r| <= MaxSourceChars && |r| <= |text|
    ensures r == text[..|r|]
    ensures |text| <= MaxSourceChars ==> r == text
    ensures |text| >= MaxSourceChars ==> |r| == MaxSourceChars
  {
    if |text| <= MaxSourceChars then text else text[..MaxSourceChars]
  }

  /** Cutting an excerpt again keeps it whole. */
  lemma ExcerptIdempotent(text: string)
    ensures Excerpt(Excerpt(text)) == Excerpt(text)
  {
  }

  /** The variable parts of the prompt sent to the model. */
  datatype Prompt = Prompt(
    difficulty: Difficulty,
    topic: string,
    questionCount: int,
    flashcardCount: int,
    excerpt: string)

  // ---------------------------------------------------------------------
  // Reply normalisation
  // ---------------------------------------------------------------------

  /** A question as the model returned it; `id` is `None` when absent. */
  datatype RawQuestion = RawQuestion(
    id: Option<string>,
    text: string,
    options: seq<string>,
    correctAnswerIndex: int,
    explanation: string)

  /** A flashcard as the model returned it. */
  datatype RawFlashcard = RawFlashcard(id: Option<string>, front: string, back: string)

  /** The parsed reply; `flashcards` is `None` when absent. */
  datatype RawQuizData = RawQuizData(
    quizTitle: string,
    questions: seq<RawQuestion>,
    flashcards: Option<seq<RawFlashcard>>)

  /** What the SDK call and the parsing produced: the call threw, the reply
      had no text, parsing or reading the parsed value threw, or a parsed
      record. */
  datatype SdkReply =
    | Failed(error: GenError)
    | NoText
    | Malformed(error: GenError)
    | Parsed(data: RawQuizData)

  /** An id the `||` keeps: present and non-empty. */
  predicate Present(id: Option<string>)
  {
    id.Some? && id.value != ""
  }

  /** `given || prefix + index`, the template literal written out. */
  function FallbackId(given: Option<string>, prefix: string, index: nat): (id: string)
    ensures id != ""
    ensures Present(given) ==> id == given.value
    ensures !Present(given) ==> id == prefix + NatToString(index)
  {
    if Present(given) then given.value else prefix + NatToString(index)
  }

  predicate StartsWith(s: string, prefix: string)
  {
    |prefix| <= |s| && s[..|prefix|] == prefix
  }

  /** The given ids are pairwise different and none looks like a
      generated one, i.e. starts with the generated prefix. */
  ghost predicate SafeGivenIds(ids: seq<Option<string>>, prefix: string)
  {
    && (forall i :: 0 <= i < |ids| && Present(ids[i]) ==> !StartsWith(ids[i].value, prefix))
    && (forall i, j :: 0 <= i < j < |ids| && Present(ids[i]) && Present(ids[j]) ==> ids[i].value != ids[j].value)
  }

  /** Ids filled in at two different positions differ when the given ones are safe. */
  lemma FallbackIdsDistinct(ids: seq<Option<string>>, prefix: string, i: nat, j: nat)
    requires SafeGivenIds(ids, prefix) && i < j < |ids|
    ensures FallbackId(ids[i], prefix, i) != FallbackId(ids[j], prefix, j)
  {
    if !Present(ids[i]) && !Present(ids[j]) {
      PrefixedNumeralsDistinct(prefix, i, j);
    } else if !Present(ids[i]) {
      assert (prefix + NatToString(i))[..|prefix|] == prefix;
    } else if !Present(ids[j]) {
      assert (prefix + NatToString(j))[..|prefix|] == prefix;
    }
  }

  /** The ids the model gave, one per item, in order. */
  function GivenIds<T>(raw: seq<T>, id: T -> Option<string>): (ids: seq<Option<string>>)
    ensures |ids| == |raw| && forall i :: 0 <= i < |raw| ==> ids[i] == id(raw[i])
  {
    seq(|raw|, i requires 0 <= i < |raw| => id(raw[i]))
  }

  function QuestionId(q: RawQuestion): Option<string>
  {
    q.id
  }

  function FlashcardId(f: RawFlashcard): Option<string>
  {
    f.id
  }

  /** One question of the reply with its id backfilled as `q-<index>`;
      the answer index is already a number, which `Number` leaves as it is. */
  function NormalizeQuestion(q: RawQuestion, index: nat): Question
  {
    Question(FallbackId(q.id, "q-", index), q.text, q.options, q.correctAnswerIndex, q.explanation)
  }

  /** `data.questions.map(...)`: one question per raw question, in order,
      each keeping its text, options, answer and explanation. */
  function NormalizeQuestions(raw: seq<RawQuestion>): (qs: seq<Question>)
    ensures |qs| == |raw|
    ensures forall i :: 0 <= i < |raw| ==>
              && qs[i].text == raw[i].text && qs[i].options == raw[i].options
              && qs[i].correctAnswerIndex == raw[i].correctAnswerIndex
              && qs[i].explanation == raw[i].explanation
              && qs[i].id == FallbackId(raw[i].id, "q-", i)
  {
    seq(|raw|, i requires 0 <= i < |raw| => NormalizeQuestion(raw[i], i))
  }

  /** One card of the reply with its id backfilled as `f-<index>`. */
  function NormalizeFlashcard(f: RawFlashcard, index: nat): Flashcard
  {
    Flashcard(FallbackId(f.id, "f-", index), f.front, f.back)
  }

  /** `(data.flashcards || []).map(...)` */
  function NormalizeFlashcards(raw: Option<seq<RawFlashcard>>): (fs: seq<Flashcard>)
    ensures raw.None? ==> fs == []
    ensures raw.Some? ==> |fs| == |raw.value|
    ensures raw.Some? ==> forall i :: 0 <= i < |raw.value| ==>
              && fs[i].front == raw.value[i].front && fs[i].back == raw.value[i].back
              && fs[i].id == FallbackId(raw.value[i].id, "f-", i)
  {
    match raw
    case None => []
    case Some(cards) => seq(|cards|, i requires 0 <= i < |cards| => NormalizeFlashcard(cards[i], i))
  }

  /** Every question gets a non-empty id, and when the model's own ids are
      safe (in particular when it gave none) the ids are unique, so the
      quiz can be played and scored by question id. */
  lemma NormalizedQuestionIds(raw: seq<RawQuestion>)
    ensures forall i :: 0 <= i < |raw| ==> NormalizeQuestions(raw)[i].id != ""
    ensures forall i :: 0 <= i < |raw| && Present(raw[i].id) ==> NormalizeQuestions(raw)[i].id == raw[i].id.value
    ensures SafeGivenIds(GivenIds(raw, QuestionId), "q-") ==> UniqueQuestionIds(NormalizeQuestions(raw))
  {
    var qs := NormalizeQuestions(raw);
    var ids := GivenIds(raw, QuestionId);
    if SafeGivenIds(ids, "q-") {
      forall i, j | 0 <= i < j < |qs|
        ensures qs[i].id != qs[j].id
      {
        FallbackIdsDistinct(ids, "q-", i, j);
      }
    }
  }

  /** A reply whose questions carry no ids gets `q-0`, `q-1`, ... */
  lemma QuestionsWithoutIdsGetUniqueIds(raw: seq<RawQuestion>)
    requires forall i :: 0 <= i < |raw| ==> raw[i].id.None?
    ensures UniqueQuestionIds(NormalizeQuestions(raw))
  {
    NormalizedQuestionIds(raw);
  }

  /** Flashcard ids are non-empty, and unique when the given ones are safe. */
  lemma NormalizedFlashcardIds(raw: seq<RawFlashcard>)
    ensures forall i :: 0 <= i < |raw| ==> NormalizeFlashcards(Some(raw))[i].id != ""
    ensures SafeGivenIds(GivenIds(raw, FlashcardId), "f-") ==>
              forall i, j :: 0 <= i < j < |raw| ==>
                NormalizeFlashcards(Some(raw))[i].id != NormalizeFlashcards(Some(raw))[j].id
  {
    var fs := NormalizeFlashcards(Some(raw));
    var ids := GivenIds(raw, FlashcardId);
    if SafeGivenIds(ids, "f-") {
      forall i, j | 0 <= i < j < |raw|
        ensures fs[i].id != fs[j].id
      {
        FallbackIdsDistinct(ids, "f-", i, j);
      }
    }
  }

  /** The quiz built from a parsed reply. */
  function QuizOf(data: RawQuizData, topic: string, quizId: string, now: int): Quiz
  {
    Quiz(quizId, data.quizTitle, topic, NormalizeQuestions(data.questions), NormalizeFlashcards(data.flashcards), now)
  }

  // ---------------------------------------------------------------------
  // generateQuizFromText
  // ---------------------------------------------------------------------

  /** The request sent to the model, if one was, and the quiz or the error thrown. */
  datatype Generation = Generation(request: Option<Prompt>, result: Result<Quiz, GenError>)

  /** `generateQuizFromText`, with `reply` standing for what the request
      returned and `quizId`, `now` for `crypto.randomUUID()` and `Date.now()`. */
  function GenerateQuiz(apiKey: Option<string>, text: string, topic: string, difficulty: Difficulty,
                        count: int, flashcardCount: int, reply: SdkReply, quizId: string, now: int): Generation
  {
    match KeyError(apiKey)
    case Some(e) => Generation(None, Err(e))
    case None =>
      var prompt := Prompt(difficulty, topic, count, flashcardCount, Excerpt(text));
      match reply
      case Failed(e) => Generation(Some(prompt), Err(CatchError(e)))
      case NoText => Generation(Some(prompt), Err(CatchError(PlainError(NoResponseMessage))))
      case Malformed(e) => Generation(Some(prompt), Err(CatchError(e)))
      case Parsed(data) => Generation(Some(prompt), Ok(QuizOf(data, topic, quizId, now)))
  }

  /** A missing or placeholder key fails with its message before any
      request; a usable key sends exactly one prompt quoting the excerpt. */
  lemma KeyChecksComeFirst(apiKey: Option<string>, text: string, topic: string, difficulty: Difficulty,
                           count: int, flashcardCount: int, reply: SdkReply, quizId: string, now: int)
    ensures KeyMissing(apiKey) ==>
              GenerateQuiz(apiKey, text, topic, difficulty, count, flashcardCount, reply, quizId, now)
                == Generation(None, Err(PlainError(MissingKeyMessage)))
    ensures !KeyMissing(apiKey) && IsPlaceholder(apiKey.value) ==>
              GenerateQuiz(apiKey, text, topic, difficulty, count, flashcardCount, reply, quizId, now)
                == Generation(None, Err(PlainError(PlaceholderKeyMessage)))
    ensures GenerateQuiz(apiKey, text, topic, difficulty, count, flashcardCount, reply, quizId, now).request.Some? <==>
              !KeyMissing(apiKey) && !IsPlaceholder(apiKey.value)
    ensures GenerateQuiz(apiKey, text, topic, difficulty, count, flashcardCount, reply, quizId, now).request.Some? ==>
              var p := GenerateQuiz(apiKey, text, topic, difficulty, count, flashcardCount, reply, quizId, now).request.value;
              p.excerpt == Excerpt(text) && |p.excerpt| <= MaxSourceChars && p.topic == topic
  {
  }

  /** With a usable key and a parsed reply the result is a quiz with the
      given id, time and topic, the reply's title, and the reply's questions
      and flashcards normalised one for one (none when the reply has no
      flashcards), each with a non-empty id. */
  lemma ParsedReplyGivesQuiz(apiKey: Option<string>, text: string, topic: string, difficulty: Difficulty,
                             count: int, flashcardCount: int, data: RawQuizData, quizId: string, now: int)
    requires KeyError(apiKey).None?
    ensures var g := GenerateQuiz(apiKey, text, topic, difficulty, count, flashcardCount, Parsed(data), quizId, now);
            && g.result.Ok?
            && g.result.value.id == quizId && g.result.value.createdAt == now
            && g.result.value.topic == topic && g.result.value.title == data.quizTitle
            && g.result.value.questions == NormalizeQuestions(data.questions)
            && g.result.value.flashcards == NormalizeFlashcards(data.flashcards)
            && |g.result.value.questions| == |data.questions|
            && (forall i :: 0 <= i < |data.questions| ==> g.result.value.questions[i].id != "")
            && (data.flashcards.None? ==> g.result.value.flashcards == [])
            && (data.flashcards.Some? ==> |g.result.value.flashcards| == |data.flashcards.value|)
            && (forall i :: 0 <= i < |g.result.value.flashcards| ==> g.result.value.flashcards[i].id != "")
  {
    NormalizedQuestionIds(data.questions);
    if data.flashcards.Some? {
      NormalizedFlashcardIds(data.flashcards.value);
    }
  }

  /** No error that leaves `generateQuizFromText` mentions 400: those are
      all reported as an invalid key. An error without 400 from the request
      or the parsing is rethrown unchanged, and an empty reply reports
      "No response from AI". */
  lemma ErrorsAfterTheRequest(apiKey: Option<string>, text: string, topic: string, difficulty: Difficulty,
                              count: int, flashcardCount: int, reply: SdkReply, quizId: string, now: int)
    ensures var g := GenerateQuiz(apiKey, text, topic, difficulty, count, flashcardCount, reply, quizId, now);
            g.result.Err? ==> !Mentions400(g.result.error)
    ensures KeyError(apiKey).None? && (reply.Failed? || reply.Malformed?) ==>
              var g := GenerateQuiz(apiKey, text, topic, difficulty, count, flashcardCount, reply, quizId, now);
              g.result == Err(if Mentions400(reply.error) then InvalidKeyError else reply.error)
    ensures KeyError(apiKey).None? ==>
              GenerateQuiz(apiKey, text, topic, difficulty, count, flashcardCount, NoText, quizId, now).result
                == Err(PlainError(NoResponseMessage))
  {
    FixedMessagesWithout400();
  }
}
