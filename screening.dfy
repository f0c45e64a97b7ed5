/** The screening flow as a state machine over the session's values. One
    `Step` is one pass of the application's `run`: the chat box is checked for
    an exit command, then the handler of the current stage runs with the user's
    action of that pass. The `Session` class in module App performs the same
    steps in place. */
module Screening {
  import opened Text
  import opened Intake
  import opened Questions
  import opened Conversation

  datatype Stage = Greeting | DataCollection | TechnicalAssessment | Completion

  /** The questions put for one technology and the answers given, index for index. */
  datatype TechResponse = TechResponse(questions: seq<string>, answers: seq<string>)

  /** Everything the session keeps. `profile` and `techResponses` together are
      the source's candidate-data dictionary: the submitted form, and the
      answers stored under its `tech_responses` key. */
  datatype State = State(
    history: seq<Entry>,
    profile: Option<Form>,
    techResponses: map<string, TechResponse>,
    stage: Stage,
    techQuestions: map<string, seq<string>>,
    techIndex: nat,
    techStack: seq<string>)

  /** The session as it is first created, and as it is recreated after a reset. */
  function Initial(): (s: State)
    ensures s.stage.Greeting? && s.history == [] && s.profile == None
    ensures s.techResponses == map[] && s.techQuestions == map[] && s.techIndex == 0 && s.techStack == []
  {
    State([], None, map[], Greeting, map[], 0, [])
  }

  /** What the user did with the page's widgets during one pass. */
  datatype Action =
    | NoAction
    | BeginClicked
    | IntakeSubmitted(form: Form)
    | AnswersSubmitted(typed: seq<string>)
    | NewSessionClicked

  /** One pass: the chat-box text ("" when nothing was typed), the widget
      action, whether an API key is configured, and what the language-model
      call would reply. */
  datatype Turn = Turn(message: string, action: Action, hasKey: bool, reply: ApiReply)

  const IntakeDoneMessage: string := "Candidate completed basic information form"

  /** `add_to_history` */
  function Record(s: State, role: Role, message: string): (r: State)
    ensures r.history == s.history + [Entry(role, message)]
    ensures r.(history := s.history) == s
  {
    s.(history := s.history + [Entry(role, message)])
  }

  /** The chat-box text ends the pass. */
  predicate Exits(message: string) {
    message != "" && IsExitCommand(message)
  }

  /** Chat-box text is logged whether or not it is an exit command. */
  function AfterMessage(s: State, message: string): State {
    if message != "" then Record(s, User, message) else s
  }

  /** `_show_greeting` */
  function GreetingStep(s: State, begin: bool): (r: State)
    ensures r.(stage := s.stage) == s
    ensures begin ==> r.stage.DataCollection?
    ensures !begin ==> r == s
  {
    if begin then s.(stage := DataCollection) else s
  }

  /** `_save_candidate_data`: the form replaces the whole candidate record,
      answers included, and the tech stack is parsed from it. */
  function SaveCandidateData(s: State, f: Form): (r: State)
    ensures r.profile == Some(f) && r.techResponses == map[]
    ensures r.techStack == ParseTechStack(f.techStack)
    ensures r.history == s.history && r.stage == s.stage
    ensures r.techQuestions == s.techQuestions && r.techIndex == s.techIndex
  {
    s.(profile := Some(f), techResponses := map[], techStack := ParseTechStack(f.techStack))
  }

  /** `_collect_candidate_data` */
  function IntakeStep(s: State, submission: Option<Form>): (r: State)
    ensures submission.Some? && ValidateForm(submission.value) ==>
            && r.stage.TechnicalAssessment? && r.profile == submission && r.techResponses == map[]
            && r.techStack == ParseTechStack(submission.value.techStack)
            && r.history == s.history + [Entry(System, IntakeDoneMessage)]
            && r.techQuestions == s.techQuestions && r.techIndex == s.techIndex
    ensures !(submission.Some? && ValidateForm(submission.value)) ==> r == s
  {
    match submission
    case None => s
    case Some(f) =>
      if ValidateForm(f) then
        Record(SaveCandidateData(s, f).(stage := TechnicalAssessment), System, IntakeDoneMessage)
      else s
  }

  /** The answers the form hands back: one text box per question, holding what
      was typed into it, or "" for a box left untouched. */
  function FormResponses(questions: seq<string>, typed: seq<string>): (responses: seq<string>)
    ensures |responses| == |questions|
  {
    seq(|questions|, i requires 0 <= i < |questions| => if i < |typed| then typed[i] else "")
  }

  /** Python's `all(responses)` on strings. */
  predicate AllAnswered(responses: seq<string>) {
    forall i :: 0 <= i < |responses| ==> responses[i] != ""
  }

  /** Questions for the current technology, generated only if none are stored yet. */
  function EnsureQuestions(s: State, hasKey: bool, reply: ApiReply): (r: State)
    requires s.techIndex < |s.techStack|
    ensures r.techStack == s.techStack && r.techIndex == s.techIndex
    ensures s.techStack[s.techIndex] in r.techQuestions
    ensures forall tech :: tech in s.techQuestions ==> tech in r.techQuestions && r.techQuestions[tech] == s.techQuestions[tech]
    ensures r == s.(techQuestions := r.techQuestions)
  {
    var tech := s.techStack[s.techIndex];
    if tech in s.techQuestions then s
    else s.(techQuestions := s.techQuestions[tech := GenerateQuestionsForTech(tech, hasKey, reply)])
  }

  /** The answers form submitted for the current technology: with every box
      filled, the answers are stored with their questions and the cursor
      moves on; otherwise nothing changes. */
  function SubmitStep(s: State, typed: seq<string>): (r: State)
    requires s.techIndex < |s.techStack| && s.techStack[s.techIndex] in s.techQuestions
    ensures r.techIndex == s.techIndex + 1 <==> AllAnswered(FormResponses(s.techQuestions[s.techStack[s.techIndex]], typed))
    ensures r.techIndex != s.techIndex + 1 ==> r == s
    ensures r.techIndex == s.techIndex + 1 ==>
            var questions := s.techQuestions[s.techStack[s.techIndex]];
            r.techResponses == s.techResponses[s.techStack[s.techIndex] := TechResponse(questions, FormResponses(questions, typed))]
    ensures r == s.(techResponses := r.techResponses, techIndex := r.techIndex)
  {
    var tech := s.techStack[s.techIndex];
    var questions := s.techQuestions[tech];
    var responses := FormResponses(questions, typed);
    if AllAnswered(responses) then
      s.(techResponses := s.techResponses[tech := TechResponse(questions, responses)],
         techIndex := s.techIndex + 1)
    else s
  }

  /** `_conduct_technical_assessment` */
  function AssessmentStep(s: State, hasKey: bool, reply: ApiReply, submission: Option<seq<string>>): (r: State)
    ensures r.history == s.history && r.profile == s.profile && r.techStack == s.techStack
    ensures r.stage == if s.techStack != [] && s.techIndex >= |s.techStack| then Completion else s.stage
    ensures s.techIndex <= r.techIndex <= s.techIndex + 1
    ensures r.techIndex == s.techIndex + 1 ==> submission.Some? && s.techIndex < |s.techStack|
    ensures forall tech :: tech in s.techQuestions ==> tech in r.techQuestions && r.techQuestions[tech] == s.techQuestions[tech]
  {
    if s.techStack == [] then s
    else if s.techIndex >= |s.techStack| then s.(stage := Completion)
    else
      var s1 := EnsureQuestions(s, hasKey, reply);
      match submission
      case None => s1
      case Some(typed) => SubmitStep(s1, typed)
  }

  /** `_show_completion`: the reset deletes every session key, and the next
      pass recreates them with their first values. */
  function CompletionStep(s: State, newSession: bool): (r: State)
    ensures newSession ==> r == Initial()
    ensures !newSession ==> r == s
  {
    if newSession then Initial() else s
  }

  /** `run`: exit check first, then the current stage's handler. */
  function Step(s: State, t: Turn): (r: State)
    ensures Exits(t.message) ==> r == AfterMessage(s, t.message)
    ensures t.action.NoAction? && !s.stage.TechnicalAssessment? ==> r == AfterMessage(s, t.message)
  {
    var s1 := AfterMessage(s, t.message);
    if Exits(t.message) then s1
    else match s1.stage
      case Greeting => GreetingStep(s1, t.action.BeginClicked?)
      case DataCollection => IntakeStep(s1, if t.action.IntakeSubmitted? then Some(t.action.form) else None)
      case TechnicalAssessment =>
        AssessmentStep(s1, t.hasKey, t.reply, Submission(t.action))
      case Completion => CompletionStep(s1, t.action.NewSessionClicked?)
  }

  /** Several passes, one after the other. */
  function RunTurns(s: State, ts: seq<Turn>): State
    decreases |ts|
  {
    if ts == [] then s else RunTurns(Step(s, ts[0]), ts[1..])
  }

  /** Which parts of the session are filled in at each stage. */
  ghost predicate StageShape(s: State) {
    && (s.stage.Greeting? || s.stage.DataCollection? ==>
          s.profile == None && s.techResponses == map[] && s.techQuestions == map[]
          && s.techIndex == 0 && s.techStack == [])
    && (s.stage.TechnicalAssessment? || s.stage.Completion? ==>
          s.profile.Some? && s.techStack == ParseTechStack(s.profile.value.techStack))
    && (s.stage.Completion? ==> s.techStack != [] && s.techIndex == |s.techStack|)
  }

  /** Answers are stored for exactly the technologies before the cursor. */
  ghost predicate AnsweredUpTo(responses: map<string, TechResponse>, stack: seq<string>, index: nat) {
    index <= |stack| && forall t :: t in responses <==> t in stack[..index]
  }

  /** Questions exist only for the technologies the cursor has reached. */
  ghost predicate QuestionsUpTo(questions: map<string, seq<string>>, stack: seq<string>, index: nat) {
    forall t :: t in questions ==> t in stack[..Min(index + 1, |stack|)]
  }

  /** Every stored answer set pairs with the stored questions, one non-empty answer per question. */
  ghost predicate Paired(responses: map<string, TechResponse>, questions: map<string, seq<string>>) {
    forall t :: t in responses ==>
      t in questions && responses[t].questions == questions[t]
      && |responses[t].answers| == |questions[t]| && AllAnswered(responses[t].answers)
  }

  /** What holds of every session the flow can reach. */
  ghost predicate Valid(s: State) {
    && StageShape(s)
    && AnsweredUpTo(s.techResponses, s.techStack, s.techIndex)
    && QuestionsUpTo(s.techQuestions, s.techStack, s.techIndex)
    && Paired(s.techResponses, s.techQuestions)
  }

  lemma InitialValid()
    ensures Valid(Initial())
  {
  }

  lemma AnsweredAdvance(responses: map<string, TechResponse>, stack: seq<string>, index: nat, r: TechResponse)
    requires AnsweredUpTo(responses, stack, index) && index < |stack|
    ensures AnsweredUpTo(responses[stack[index] := r], stack, index + 1)
  {
    assert stack[..index + 1] == stack[..index] + [stack[index]];
  }

  lemma QuestionsAdvance(questions: map<string, seq<string>>, stack: seq<string>, index: nat)
    requires QuestionsUpTo(questions, stack, index)
    ensures QuestionsUpTo(questions, stack, index + 1)
  {
    forall t | t in questions ensures t in stack[..Min(index + 2, |stack|)] {
      assert stack[..Min(index + 1, |stack|)] <= stack[..Min(index + 2, |stack|)];
    }
  }

  lemma QuestionsAdd(questions: map<string, seq<string>>, stack: seq<string>, index: nat, qs: seq<string>)
    requires QuestionsUpTo(questions, stack, index) && index < |stack|
    ensures QuestionsUpTo(questions[stack[index] := qs], stack, index)
  {
    assert stack[index] in stack[..index + 1];
  }

  lemma PairedAdd(responses: map<string, TechResponse>, questions: map<string, seq<string>>, tech: string, r: TechResponse)
    requires Paired(responses, questions) && tech in questions
    requires r.questions == questions[tech] && |r.answers| == |r.questions| && AllAnswered(r.answers)
    ensures Paired(responses[tech := r], questions)
  {
  }

  lemma PairedNewQuestions(responses: map<string, TechResponse>, questions: map<string, seq<string>>, tech: string, qs: seq<string>)
    requires Paired(responses, questions) && tech !in questions
    ensures Paired(responses, questions[tech := qs])
  {
  }

  lemma EnsureQuestionsPreservesValid(s: State, hasKey: bool, reply: ApiReply)
    requires Valid(s) && s.stage.TechnicalAssessment? && s.techIndex < |s.techStack|
    ensures Valid(EnsureQuestions(s, hasKey, reply))
  {
    var tech := s.techStack[s.techIndex];
    if tech !in s.techQuestions {
      var qs := GenerateQuestionsForTech(tech, hasKey, reply);
      QuestionsAdd(s.techQuestions, s.techStack, s.techIndex, qs);
      PairedNewQuestions(s.techResponses, s.techQuestions, tech, qs);
    }
  }

  lemma SubmitPreservesValid(s: State, typed: seq<string>)
    requires Valid(s) && s.stage.TechnicalAssessment? && s.techIndex < |s.techStack|
    requires s.techStack[s.techIndex] in s.techQuestions
    ensures Valid(SubmitStep(s, typed))
  {
    var tech := s.techStack[s.techIndex];
    var questions := s.techQuestions[tech];
    var responses := FormResponses(questions, typed);
    if AllAnswered(responses) {
      var r := TechResponse(questions, responses);
      AnsweredAdvance(s.techResponses, s.techStack, s.techIndex, r);
      QuestionsAdvance(s.techQuestions, s.techStack, s.techIndex);
      PairedAdd(s.techResponses, s.techQuestions, tech, r);
    }
  }

  lemma AssessmentPreservesValid(s: State, hasKey: bool, reply: ApiReply, submission: Option<seq<string>>)
    requires Valid(s) && s.stage.TechnicalAssessment?
    ensures Valid(AssessmentStep(s, hasKey, reply, submission))
  {
    if s.techStack == [] {
    } else if s.techIndex >= |s.techStack| {
      CompletePreservesValid(s);
    } else {
      AnswerPreservesValid(s, hasKey, reply, submission);
    }
  }

  lemma AnswerPreservesValid(s: State, hasKey: bool, reply: ApiReply, submission: Option<seq<string>>)
    requires Valid(s) && s.stage.TechnicalAssessment? && s.techIndex < |s.techStack|
    ensures Valid(AssessmentStep(s, hasKey, reply, submission))
  {
    var s1 := EnsureQuestions(s, hasKey, reply);
    EnsureQuestionsPreservesValid(s, hasKey, reply);
    if submission.Some? {
      SubmitPreservesValid(s1, submission.value);
    }
  }

  lemma CompletePreservesValid(s: State)
    requires Valid(s) && s.stage.TechnicalAssessment? && s.techStack != [] && s.techIndex >= |s.techStack|
    ensures Valid(s.(stage := Completion))
  {
  }

  lemma IntakePreservesValid(s: State, submission: Option<Form>)
    requires Valid(s) && s.stage.DataCollection?
    ensures Valid(IntakeStep(s, submission))
  {
  }

  /** Every pass keeps the session consistent. */
  lemma StepPreservesValid(s: State, t: Turn)
    requires Valid(s)
    ensures Valid(Step(s, t))
  {
    var s1 := AfterMessage(s, t.message);
    assert Valid(s1);
    if !Exits(t.message) {
      match s1.stage
      case Greeting =>
      case DataCollection =>
        IntakePreservesValid(s1, IntakeSubmission(t.action));
      case TechnicalAssessment =>
        AssessmentPreservesValid(s1, t.hasKey, t.reply, Submission(t.action));
      case Completion =>
    }
  }

  /** Valid sessions stay valid over any number of passes. */
  lemma {:induction false} RunTurnsPreservesValid(s: State, ts: seq<Turn>)
    requires Valid(s)
    ensures Valid(RunTurns(s, ts))
    decreases |ts|
  {
    if ts != [] {
      StepPreservesValid(s, ts[0]);
      RunTurnsPreservesValid(Step(s, ts[0]), ts[1..]);
    }
  }

  /** A session that has reached the end holds a non-empty answer to every
      question asked, for every technology of the parsed stack. */
  lemma CompletionHasEveryAnswer(s: State)
    requires Valid(s) && s.stage.Completion?
    ensures s.profile.Some? && s.techStack == ParseTechStack(s.profile.value.techStack) && s.techStack != []
    ensures forall k :: 0 <= k < |s.techStack| ==>
      && s.techStack[k] in s.techResponses && s.techStack[k] in s.techQuestions
      && s.techResponses[s.techStack[k]].questions == s.techQuestions[s.techStack[k]]
      && |s.techResponses[s.techStack[k]].answers| == |s.techQuestions[s.techStack[k]]|
      && AllAnswered(s.techResponses[s.techStack[k]].answers)
  {
    forall k | 0 <= k < |s.techStack| ensures s.techStack[k] in s.techResponses {
      assert s.techStack[k] == s.techStack[..s.techIndex][k];
    }
  }

  /** An exit command is logged and ends the pass: nothing else changes. */
  lemma ExitOnlyLogs(s: State, t: Turn)
    requires Exits(t.message)
    ensures Step(s, t) == s.(history := s.history + [Entry(User, t.message)])
  {
  }

  /** Whatever the pass does, typed text is logged first, and the log only
      grows, by at most the intake note, unless the session is reset. */
  lemma MessageAlwaysLogged(s: State, t: Turn)
    ensures var h := Step(s, t).history;
            var logged := AfterMessage(s, t.message).history;
            if s.stage.Completion? && t.action.NewSessionClicked? && !Exits(t.message) then h == []
            else h == logged || h == logged + [Entry(System, IntakeDoneMessage)]
    ensures t.message != "" && !(s.stage.Completion? && t.action.NewSessionClicked? && !Exits(t.message))
            ==> s.history + [Entry(User, t.message)] <= Step(s, t).history
  {
    match s.stage
    case Greeting => GreetingPass(s, t);
    case DataCollection => IntakePass(s, t);
    case TechnicalAssessment => AssessmentPass(s, t);
    case Completion => CompletionPass(s, t);
  }

  /** The greeting moves on exactly when "Let's Begin!" is clicked and the
      chat box held no exit command; nothing but the stage and the log changes. */
  lemma GreetingTransition(s: State, t: Turn)
    requires s.stage.Greeting?
    ensures Step(s, t).stage.DataCollection? <==> t.action.BeginClicked? && !Exits(t.message)
    ensures Step(s, t).stage.Greeting? || Step(s, t).stage.DataCollection?
    ensures Step(s, t).(stage := Greeting) == AfterMessage(s, t.message)
  {
    GreetingPass(s, t);
  }

  /** The intake form moves on exactly when a valid form is submitted; then the
      form becomes the candidate record, its tech stack is parsed in order, and
      the intake note is logged. Otherwise only the log can change. */
  lemma IntakeTransition(s: State, t: Turn)
    requires s.stage.DataCollection?
    ensures Step(s, t).stage.TechnicalAssessment? <==>
            !Exits(t.message) && t.action.IntakeSubmitted? && ValidateForm(t.action.form)
    ensures Step(s, t).stage.TechnicalAssessment? ==>
            && Step(s, t).profile == Some(t.action.form)
            && Step(s, t).techStack == ParseTechStack(t.action.form.techStack)
            && Step(s, t).techResponses == map[]
            && Step(s, t).history == AfterMessage(s, t.message).history + [Entry(System, IntakeDoneMessage)]
    ensures !Step(s, t).stage.TechnicalAssessment? ==> Step(s, t) == AfterMessage(s, t.message)
  {
    IntakePass(s, t);
  }

  /** The assessment ends exactly when a pass finds a non-empty stack with
      every technology answered; then only the stage and the log change. */
  lemma AssessmentCompletes(s: State, t: Turn)
    requires s.stage.TechnicalAssessment?
    ensures Step(s, t).stage.Completion? <==>
            !Exits(t.message) && s.techStack != [] && s.techIndex >= |s.techStack|
    ensures Step(s, t).stage.Completion? ==> Step(s, t) == AfterMessage(s, t.message).(stage := Completion)
    ensures Step(s, t).stage.TechnicalAssessment? || Step(s, t).stage.Completion?
  {
    AssessmentPass(s, t);
  }

  /** With no technology parsed, the assessment never ends: every pass keeps
      the stage, the (empty) stack, the cursor and all stored answers. */
  lemma {:induction false} EmptyStackStuck(s: State, ts: seq<Turn>)
    requires s.stage.TechnicalAssessment? && s.techStack == []
    ensures RunTurns(s, ts).(history := s.history) == s
    ensures s.history <= RunTurns(s, ts).history
    decreases |ts|
  {
    if ts != [] {
      var s1 := Step(s, ts[0]);
      assert s1.(history := s.history) == s;
      EmptyStackStuck(s1, ts[1..]);
      assert s1.(history := s.history).(history := RunTurns(s1, ts[1..]).history)
          == RunTurns(s1, ts[1..]);
    }
  }

  /** "Start New Session" on the completion page recreates the first session,
      and nothing else does. */
  lemma ResetTransition(s: State, t: Turn)
    requires s.stage.Completion?
    ensures Step(s, t) == Initial() <==> !Exits(t.message) && t.action.NewSessionClicked?
    ensures Step(s, t) != Initial() ==> Step(s, t) == AfterMessage(s, t.message)
  {
    CompletionPass(s, t);
  }

  /** The answers submitted on a pass, if the answers form was submitted. */
  function Submission(a: Action): Option<seq<string>> {
    if a.AnswersSubmitted? then Some(a.typed) else None
  }

  /** A pass on the answers page: the exit check, then the assessment handler. */
  lemma AssessmentPass(s: State, t: Turn)
    requires s.stage.TechnicalAssessment?
    ensures Step(s, t) == if Exits(t.message) then AfterMessage(s, t.message)
                          else AssessmentStep(AfterMessage(s, t.message), t.hasKey, t.reply, Submission(t.action))
  {
  }

  /** The intake form submitted on a pass, if it was submitted. */
  function IntakeSubmission(a: Action): Option<Form> {
    if a.IntakeSubmitted? then Some(a.form) else None
  }

  /** A pass on the greeting page. */
  lemma GreetingPass(s: State, t: Turn)
    requires s.stage.Greeting?
    ensures Step(s, t) == if Exits(t.message) then AfterMessage(s, t.message)
                          else GreetingStep(AfterMessage(s, t.message), t.action.BeginClicked?)
  {
  }

  /** A pass on the intake page. */
  lemma IntakePass(s: State, t: Turn)
    requires s.stage.DataCollection?
    ensures Step(s, t) == if Exits(t.message) then AfterMessage(s, t.message)
                          else IntakeStep(AfterMessage(s, t.message), IntakeSubmission(t.action))
  {
  }

  /** A pass on the completion page. */
  lemma CompletionPass(s: State, t: Turn)
    requires s.stage.Completion?
    ensures Step(s, t) == if Exits(t.message) then AfterMessage(s, t.message)
                          else CompletionStep(AfterMessage(s, t.message), t.action.NewSessionClicked?)
  {
  }

  /** The order of the stages; a pass never goes back except by the reset. */
  function StageRank(stage: Stage): nat {
    match stage
    case Greeting => 0
    case DataCollection => 1
    case TechnicalAssessment => 2
    case Completion => 3
  }

  /** Each pass moves the flow forward by at most one stage, and only the
      reset from the completion page moves it back, to the very start. */
  lemma StagesMoveForward(s: State, t: Turn)
    ensures var next := Step(s, t);
            if s.stage.Completion? && t.action.NewSessionClicked? && !Exits(t.message) then next == Initial()
            else StageRank(s.stage) <= StageRank(next.stage) <= StageRank(s.stage) + 1
  {
    match s.stage
    case Greeting => GreetingPass(s, t);
    case DataCollection => IntakePass(s, t);
    case TechnicalAssessment => AssessmentPass(s, t);
    case Completion => CompletionPass(s, t);
  }

  /** Questions, once stored for a technology, are reused on every later pass:
      only the reset discards them. */
  lemma QuestionsMemoised(s: State, t: Turn)
    requires !(s.stage.Completion? && t.action.NewSessionClicked? && !Exits(t.message))
    ensures forall tech :: tech in s.techQuestions ==>
      tech in Step(s, t).techQuestions && Step(s, t).techQuestions[tech] == s.techQuestions[tech]
  {
    match s.stage
    case Greeting => GreetingPass(s, t);
    case DataCollection => IntakePass(s, t);
    case TechnicalAssessment =>
      AssessmentPass(s, t);
    case Completion => CompletionPass(s, t);
  }

  /** The questions shown for the technology under the cursor: the stored
      ones, or those generated on this pass. */
  function ShownQuestions(s: State, hasKey: bool, reply: ApiReply): (qs: seq<string>)
    requires s.techIndex < |s.techStack|
    ensures s.techStack[s.techIndex] in s.techQuestions ==> qs == s.techQuestions[s.techStack[s.techIndex]]
    ensures s.techStack[s.techIndex] !in s.techQuestions ==>
            qs == GenerateQuestionsForTech(s.techStack[s.techIndex], hasKey, reply)
  {
    EnsureQuestions(s, hasKey, reply).techQuestions[s.techStack[s.techIndex]]
  }

  /** Submitting the answers form moves to the next technology exactly when
      every box is filled; the answers are then stored with their questions.
      With a box left empty the pass only stores the questions and logs. */
  lemma AnswersSubmission(s: State, t: Turn)
    requires s.stage.TechnicalAssessment? && s.techIndex < |s.techStack|
    requires !Exits(t.message) && t.action.AnswersSubmitted?
    ensures var qs := ShownQuestions(s, t.hasKey, t.reply);
            var answers := FormResponses(qs, t.action.typed);
            var next := Step(s, t);
            var shown := EnsureQuestions(AfterMessage(s, t.message), t.hasKey, t.reply);
            && next.stage.TechnicalAssessment?
            && (next.techIndex == s.techIndex + 1 <==> AllAnswered(answers))
            && (AllAnswered(answers) ==>
                  next == shown.(techResponses := s.techResponses[s.techStack[s.techIndex] := TechResponse(qs, answers)],
                                 techIndex := s.techIndex + 1))
            && (!AllAnswered(answers) ==> next == shown)
  {
    var s1 := AfterMessage(s, t.message);
    assert ShownQuestions(s1, t.hasKey, t.reply) == ShownQuestions(s, t.hasKey, t.reply);
    AssessmentPass(s, t);
    assert Step(s, t) == AssessmentStep(s1, t.hasKey, t.reply, Some(t.action.typed));
  }

  /** A pass with no submission on the answers page stores the questions it
      shows, and changes nothing else but the log. */
  lemma AssessmentWithoutSubmission(s: State, t: Turn)
    requires s.stage.TechnicalAssessment? && s.techIndex < |s.techStack|
    requires !Exits(t.message) && !t.action.AnswersSubmitted?
    ensures Step(s, t) == EnsureQuestions(AfterMessage(s, t.message), t.hasKey, t.reply)
    ensures Step(s, t).techQuestions[s.techStack[s.techIndex]] == ShownQuestions(s, t.hasKey, t.reply)
  {
  }

  /** An API reply that is an empty JSON array leaves no question to answer:
      the pass that shows the page stores `[]`, and submitting the empty form
      on the next pass moves on at once. */
  lemma NoQuestionsAdvance(s: State, t0: Turn, t1: Turn)
    requires s.stage.TechnicalAssessment? && s.techIndex < |s.techStack|
    requires s.techStack[s.techIndex] !in s.techQuestions
    requires !Exits(t0.message) && !t0.action.AnswersSubmitted? && t0.hasKey && t0.reply == JsonArray([])
    requires !Exits(t1.message) && t1.action.AnswersSubmitted?
    ensures Step(s, t0).techQuestions[s.techStack[s.techIndex]] == []
    ensures Step(s, t0).techIndex == s.techIndex
    ensures Step(Step(s, t0), t1).techIndex == s.techIndex + 1
    ensures Step(Step(s, t0), t1).techResponses[s.techStack[s.techIndex]] == TechResponse([], [])
  {
    AssessmentWithoutSubmission(s, t0);
    AnswersSubmission(Step(s, t0), t1);
  }

  /** The assessment of a one-technology stack "Python" without an API key:
      the first pass shows and stores the four Python questions, the next
      stores four non-empty answers with them and moves the cursor past the
      stack, and the pass after that reaches the end. */
  lemma PythonScenario(s: State, t0: Turn, t1: Turn, t2: Turn)
    requires s.stage.TechnicalAssessment? && s.techStack == ["Python"] && s.techIndex == 0
    requires s.techQuestions == map[]
    requires t0.message == "" && !t0.hasKey && t0.action.NoAction?
    requires t1.message == "" && t1.action.AnswersSubmitted?
    requires |t1.action.typed| == 4 && AllAnswered(t1.action.typed)
    requires t2.message == ""
    ensures Step(s, t0).techQuestions["Python"] == PythonQuestions
    ensures Step(s, t0).techIndex == 0
    ensures Step(Step(s, t0), t1).techIndex == 1
    ensures Step(Step(s, t0), t1).techResponses["Python"] == TechResponse(PythonQuestions, t1.action.typed)
    ensures Step(Step(Step(s, t0), t1), t2).stage.Completion?
  {
    FallbackPython();
    AssessmentWithoutSubmission(s, t0);
    var s1 := Step(s, t0);
    assert FormResponses(PythonQuestions, t1.action.typed) == t1.action.typed;
    AnswersSubmission(s1, t1);
    AssessmentCompletes(Step(s1, t1), t2);
  }
}
