/** The quiz arena (frontend/app/user-dashboard/quiz/page.tsx): fetching a question, the
    payment wall, scoring an answer at most once, and how the options are highlighted. */
module Quiz {
  import opened Common
  import Api

  datatype Verdict = Correct | Wrong

  /** The page's state. A quiz has the same shape as an interview question
      (`question`, `options`, `answer`); `walletOpen` is `showAddMoney`. */
  datatype QuizPage = QuizPage(
    topic: string,
    quiz: Option<Api.Question>,
    result: Option<Verdict>,
    selected: Option<string>,
    paymentMsg: string,
    walletOpen: bool,
    loading: bool)

  /** What `POST /api/quiz/generate` answers: a `payment_required` status with a message,
      or anything else, which the page takes as the quiz. */
  datatype QuizReply = PaymentRequired(message: string) | Issued(quiz: Api.Question)

  /** The first half of `generateQuiz`, before the request: the old quiz, result, selection and
      payment message are cleared and the page shows it is loading. */
  function StartGenerate(p: QuizPage): (r: QuizPage)
    ensures r.quiz.None? && r.result.None? && r.selected.None? && r.paymentMsg == "" && r.loading
    ensures r.topic == p.topic && r.walletOpen == p.walletOpen
  {
    p.(quiz := None, result := None, selected := None, paymentMsg := "", loading := true)
  }

  /** `generateQuiz` as a whole: a payment wall leaves the quiz empty, shows the message and
      opens the wallet; any other reply becomes the quiz. Either way loading ends. */
  function GenerateQuiz(p: QuizPage, reply: QuizReply): (r: QuizPage)
    ensures r.result.None? && r.selected.None? && !r.loading && r.topic == p.topic
    ensures reply.PaymentRequired? ==>
      r.quiz.None? && r.paymentMsg == reply.message && r.walletOpen
    ensures reply.Issued? ==>
      r.quiz == Some(reply.quiz) && r.paymentMsg == "" && r.walletOpen == p.walletOpen
  {
    var s := StartGenerate(p);
    match reply
    case PaymentRequired(m) => s.(paymentMsg := m, walletOpen := true, loading := false)
    case Issued(q) => s.(quiz := Some(q), loading := false)
  }

  /** The outcome of pressing an option: the new page and, when a score was sent to
      `POST /api/quiz/submit`, its `is_correct` flag. */
  datatype Checked = Checked(page: QuizPage, sent: Option<bool>)

  /** `checkAnswer`: once a result exists nothing happens and nothing is sent; otherwise the option
      is selected, the verdict is Correct iff it equals the quiz's answer, and that flag is sent.
      Without a result the page reads `quiz.answer`, so a quiz must be showing. */
  function CheckAnswer(p: QuizPage, option: string): (c: Checked)
    requires p.result.Some? || p.quiz.Some?
    ensures p.result.Some? ==> c == Checked(p, None)
    ensures p.result.None? ==>
      && c.sent == Some(option == p.quiz.value.answer)
      && c.page.result == Some(if option == p.quiz.value.answer then Correct else Wrong)
      && c.page.selected == Some(option)
      && c.page.(result := p.result, selected := p.selected) == p
  {
    if p.result.Some? then Checked(p, None)
    else
      var isCorrect := option == p.quiz.value.answer;
      Checked(p.(selected := Some(option), result := Some(if isCorrect then Correct else Wrong)),
              Some(isCorrect))
  }

  /** Pressing each option of `presses` in turn; the count is how many scores were sent. */
  function PressAll(p: QuizPage, presses: seq<string>): (r: (QuizPage, nat))
    requires p.result.Some? || p.quiz.Some?
    ensures r.0.quiz == p.quiz
    ensures r.0.result.Some? || r.0.quiz.Some?
    ensures p.result.Some? ==> r.0.result == p.result
    decreases |presses|
  {
    if |presses| == 0 then (p, 0)
    else
      var c := CheckAnswer(p, presses[0]);
      var rest := PressAll(c.page, presses[1..]);
      (rest.0, rest.1 + (if c.sent.Some? then 1 else 0))
  }

  /** A question is scored at most once: however many options are pressed, one score is sent
      when the first press finds no result and none otherwise, and the verdict is the first
      press's. */
  lemma {:induction false} ScoredAtMostOnce(p: QuizPage, presses: seq<string>)
    requires p.result.Some? || p.quiz.Some?
    ensures PressAll(p, presses).1 <= 1
    ensures PressAll(p, presses).1 == 1 <==> p.result.None? && |presses| > 0
    ensures p.result.None? && |presses| > 0 ==>
      PressAll(p, presses).0.result == CheckAnswer(p, presses[0]).page.result
    decreases |presses|
  {
    if |presses| > 0 {
      var c := CheckAnswer(p, presses[0]);
      assert c.page.result.Some?;
      AlreadyScoredSendsNothing(c.page, presses[1..]);
    }
  }

  /** With a result already present, pressing anything sends nothing and changes nothing. */
  lemma {:induction false} AlreadyScoredSendsNothing(p: QuizPage, presses: seq<string>)
    requires p.result.Some?
    ensures PressAll(p, presses) == (p, 0)
    decreases |presses|
  {
    if |presses| > 0 {
      AlreadyScoredSendsNothing(p, presses[1..]);
    }
  }

  /** How an option button looks: untouched before a result; afterwards the right answer
      is green, a wrong selected option red and the rest greyed. */
  datatype Highlight = Neutral | Green | Red | Grey

  function HighlightOf(p: QuizPage, opt: string): (h: Highlight)
    requires p.quiz.Some?
    ensures p.result.None? <==> h == Neutral
    ensures h == Green <==> p.result.Some? && opt == p.quiz.value.answer
    ensures h == Red <==> p.result.Some? && p.selected == Some(opt) && opt != p.quiz.value.answer
  {
    if p.result.Some? then
      if opt == p.quiz.value.answer then Green
      else if p.selected == Some(opt) && opt != p.quiz.value.answer then Red
      else Grey
    else Neutral
  }

  /** After answering a fresh quiz, the pressed option is green iff the verdict is Correct and
      red iff it is Wrong, and the correct option is always green. */
  lemma AnsweredHighlight(p: QuizPage, option: string)
    requires p.quiz.Some? && p.result.None?
    ensures HighlightOf(CheckAnswer(p, option).page, option) == Green <==>
      CheckAnswer(p, option).page.result == Some(Correct)
    ensures HighlightOf(CheckAnswer(p, option).page, option) == Red <==>
      CheckAnswer(p, option).page.result == Some(Wrong)
    ensures HighlightOf(CheckAnswer(p, option).page, p.quiz.value.answer) == Green
  {
  }

  /** A freshly issued quiz is scored exactly once for any non-empty run of presses, with the
      verdict of the first press, even when the previous quiz had already been scored; a payment
      wall leaves no quiz, so there is nothing to press. */
  lemma IssuedQuizScoresOnce(p: QuizPage, q: Api.Question, presses: seq<string>, message: string)
    ensures PressAll(GenerateQuiz(p, Issued(q)), presses).1 == (if |presses| > 0 then 1 else 0)
    ensures |presses| > 0 ==>
      PressAll(GenerateQuiz(p, Issued(q)), presses).0.result ==
        Some(if presses[0] == q.answer then Correct else Wrong)
    ensures var walled := GenerateQuiz(p, PaymentRequired(message));
      walled.quiz.None? && walled.result.None?
  {
    ScoredAtMostOnce(GenerateQuiz(p, Issued(q)), presses);
  }
}
