/** The application object: the session fields it updates in place on every
    pass, and one method per handler. Each method is tied to the function of
    module Screening that specifies it, so every property proved there about
    the flow holds of the object. */
module App {
  import opened Text
  import opened Intake
  import opened Questions
  import opened Conversation
  import opened Screening

  /** The loop of `get_conversation_context`: one line per entry of the last
      ten, appended in order. */
  method ConversationContext(history: seq<Entry>) returns (context: string)
    ensures context == Context(history)
  {
    var window := RecentEntries(history);
    context := "";
    var i := 0;
    while i < |window|
      invariant 0 <= i <= |window|
      invariant context == Render(window[..i])
    {
      assert window[..i + 1][..i] == window[..i];
      context := context + EntryLine(window[i]);
      i := i + 1;
    }
    assert window[..i] == window;
  }

  /** The loop that draws one text box per question on the answers form and
      collects what each box holds. */
  method CollectResponses(questions: seq<string>, typed: seq<string>) returns (responses: seq<string>)
    ensures |responses| == |questions|
    ensures forall i :: 0 <= i < |questions| ==> responses[i] == if i < |typed| then typed[i] else ""
  {
    responses := [];
    var i := 0;
    while i < |questions|
      invariant 0 <= i <= |questions|
      invariant |responses| == i
      invariant forall k :: 0 <= k < i ==> responses[k] == if k < |typed| then typed[k] else ""
    {
      var box := if i < |typed| then typed[i] else "";
      responses := responses + [box];
      i := i + 1;
    }
  }

  /** The Streamlit session: its keys are the fields below. */
  class Session {
    var history: seq<Entry>
    var profile: Option<Form>
    var techResponses: map<string, TechResponse>
    var stage: Stage
    var techQuestions: map<string, seq<string>>
    var techIndex: nat
    var techStack: seq<string>

    /** The session's fields as one value. */
    function Snapshot(): State
      reads this
    {
      State(history, profile, techResponses, stage, techQuestions, techIndex, techStack)
    }

    /** `_initialize_session_state` on an empty session. */
    constructor ()
      ensures Snapshot() == Initial()
    {
      history := [];
      profile := None;
      techResponses := map[];
      stage := Greeting;
      techQuestions := map[];
      techIndex := 0;
      techStack := [];
    }

    /** `add_to_history`: the entry goes at the end; nothing else changes. */
    method AddToHistory(role: Role, message: string)
      modifies this
      ensures Snapshot() == Record(old(Snapshot()), role, message)
    {
      history := history + [Entry(role, message)];
    }

    /** `get_conversation_context` */
    method GetConversationContext() returns (context: string)
      ensures context == Context(history)
    {
      context := ConversationContext(history);
    }

    /** `_check_exit_command`: typed text is logged, then checked for a keyword. */
    method CheckExitCommand(userInput: string) returns (exit: bool)
      modifies this
      ensures exit == Exits(userInput)
      ensures Snapshot() == AfterMessage(old(Snapshot()), userInput)
    {
      exit := false;
      if userInput != "" {
        AddToHistory(User, userInput);
        exit := IsExitCommand(userInput);
      }
    }

    /** `_show_greeting` */
    method ShowGreeting(beginClicked: bool)
      modifies this
      ensures Snapshot() == GreetingStep(old(Snapshot()), beginClicked)
    {
      if beginClicked {
        stage := DataCollection;
      }
    }

    /** `_save_candidate_data` */
    method SaveCandidateData(f: Form)
      modifies this
      ensures Snapshot() == Screening.SaveCandidateData(old(Snapshot()), f)
    {
      profile := Some(f);
      techResponses := map[];
      techStack := ParseTechStack(f.techStack);
    }

    /** `_collect_candidate_data` with `collect_basic_info`: a valid submission
      is saved, the stage moves on and the intake note is logged. */
    method CollectCandidateData(submission: Option<Form>)
      modifies this
      ensures Snapshot() == IntakeStep(old(Snapshot()), submission)
    {
      if submission.Some? && ValidateForm(submission.value) {
        SaveCandidateData(submission.value);
        stage := TechnicalAssessment;
        AddToHistory(System, IntakeDoneMessage);
      }
    }

    /** `_conduct_technical_assessment` */
    method ConductTechnicalAssessment(hasKey: bool, reply: ApiReply, submission: Option<seq<string>>)
      modifies this
      ensures Snapshot() == AssessmentStep(old(Snapshot()), hasKey, reply, submission)
    {
      if techStack == [] {
        return;
      }
      if techIndex >= |techStack| {
        stage := Completion;
        return;
      }
      ShowQuestions(hasKey, reply);
      if submission.Some? {
        SubmitAnswers(submission.value);
      }
    }

    /** Generates and stores the current technology's questions unless they
        are stored already. */
    method ShowQuestions(hasKey: bool, reply: ApiReply)
      requires techIndex < |techStack|
      modifies this
      ensures Snapshot() == EnsureQuestions(old(Snapshot()), hasKey, reply)
    {
      var tech := techStack[techIndex];
      if tech !in techQuestions {
        techQuestions := techQuestions[tech := GenerateQuestionsForTech(tech, hasKey, reply)];
      }
    }

    /** The submitted answers form: stored and the cursor advanced only when
        every box is filled. */
    method SubmitAnswers(typed: seq<string>)
      requires techIndex < |techStack| && techStack[techIndex] in techQuestions
      modifies this
      ensures Snapshot() == SubmitStep(old(Snapshot()), typed)
    {
      var tech := techStack[techIndex];
      var questions := techQuestions[tech];
      var responses := CollectResponses(questions, typed);
      assert responses == FormResponses(questions, typed);
      if AllAnswered(responses) {
        techResponses := techResponses[tech := TechResponse(questions, responses)];
        techIndex := techIndex + 1;
      }
    }

    /** `_show_completion`: "Start New Session" deletes every key, and they
      are recreated with their first values. */
    method ShowCompletion(newSession: bool)
      modifies this
      ensures Snapshot() == CompletionStep(old(Snapshot()), newSession)
    {
      if newSession {
        history := [];
        profile := None;
        techResponses := map[];
        stage := Greeting;
        techQuestions := map[];
        techIndex := 0;
        techStack := [];
      }
    }

    /** `run`: one pass of the application. */
    method Run(t: Turn)
      modifies this
      ensures Snapshot() == Step(old(Snapshot()), t)
      ensures Valid(old(Snapshot())) ==> Valid(Snapshot())
    {
      ghost var before := Snapshot();
      if Valid(before) {
        StepPreservesValid(before, t);
      }
      var exit := CheckExitCommand(t.message);
      if exit {
        return;
      }
      match stage
      case Greeting => ShowGreeting(t.action.BeginClicked?);
      case DataCollection => CollectCandidateData(IntakeSubmission(t.action));
      case TechnicalAssessment => ConductTechnicalAssessment(t.hasKey, t.reply, Submission(t.action));
      case Completion => ShowCompletion(t.action.NewSessionClicked?);
    }
  }
}
