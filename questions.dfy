/** Where the questions for one technology come from: the language-model reply
    when an API key is configured and the call succeeds, otherwise a fixed
    table looked up by technology name, otherwise four template questions. */
module Questions {
  import opened Text

  /** What the remote completion call produced, as seen by the application:
      the call (or the key) failed, the reply text parsed as a JSON array of
      strings, or the reply text did not parse as JSON. */
  datatype ApiReply = CallFailed | JsonArray(items: seq<string>) | NotJson(content: string)

  /** At most this many questions are kept from a reply. */
  const MaxQuestions: nat := 5

  const PythonQuestions: seq<string> := [
    "What are the key differences between lists and tuples in Python?",
    "How does Python handle memory management?",
    "Explain the concept of decorators in Python.",
    "What are some common use cases for generators?"
  ]

  const JavaScriptQuestions: seq<string> := [
    "Explain the event loop in JavaScript.",
    "What are the differences between let, const, and var?",
    "How does prototypal inheritance work in JavaScript?",
    "What are promises and how do they work?"
  ]

  const ReactQuestions: seq<string> := [
    "What is the virtual DOM and how does it work?",
    "Explain the component lifecycle methods.",
    "What are hooks and how do they differ from class components?",
    "How would you optimize React application performance?"
  ]

  const NodeQuestions: seq<string> := [
    "How does Node.js handle asynchronous operations?",
    "Explain the event-driven architecture of Node.js.",
    "What are streams and how are they used?",
    "How would you handle memory leaks in Node.js?"
  ]

  /** The keys of the fallback table, in the order they are tried. */
  const FallbackKeys: seq<string> := ["python", "javascript", "react", "node.js"]

  /** The question list stored under each key, index for index with `FallbackKeys`. */
  const FallbackLists: seq<seq<string>> := [PythonQuestions, JavaScriptQuestions, ReactQuestions, NodeQuestions]

  /** The four generic questions about a technology the table does not know. */
  function TemplateQuestions(technology: string): (qs: seq<string>)
    ensures |qs| == 4
    ensures forall k :: 0 <= k < |qs| ==> Contains(technology, qs[k])
  {
    var qs := [
      "What experience do you have with " + technology + "?",
      "Describe a challenging project you built using " + technology + ".",
      "What are the best practices for working with " + technology + "?",
      "How would you troubleshoot performance issues in " + technology + "?"
    ];
    MentionedBetween("What experience do you have with ", technology, "?");
    MentionedBetween("Describe a challenging project you built using ", technology, ".");
    MentionedBetween("What are the best practices for working with ", technology, "?");
    MentionedBetween("How would you troubleshoot performance issues in ", technology, "?");
    qs
  }

  /** Whatever surrounds `technology`, the result mentions it. */
  lemma MentionedBetween(a: string, technology: string, b: string)
    ensures Contains(technology, a + technology + b)
  {
    var s := a + technology + b;
    assert s[|a|..|a| + |technology|] == technology;
    assert OccursAt(technology, s, |a|);
  }

  /** The table key chosen for `technology`: the first key, in table order,
      that occurs in the lower-cased name. */
  ghost predicate SelectsKey(technology: string, i: int) {
    0 <= i < |FallbackKeys|
    && Contains(FallbackKeys[i], Lower(technology))
    && forall j :: 0 <= j < i ==> !Contains(FallbackKeys[j], Lower(technology))
  }

  /** `_get_fallback_questions`: the stored list of the first key found in the
      lower-cased name, or the four template questions when no key is found. */
  function FallbackQuestions(technology: string): (qs: seq<string>)
    ensures |qs| == 4
    ensures forall i :: SelectsKey(technology, i) ==> qs == FallbackLists[i]
    ensures (forall j :: 0 <= j < |FallbackKeys| ==> !Contains(FallbackKeys[j], Lower(technology)))
            ==> qs == TemplateQuestions(technology)
  {
    match FirstContained(FallbackKeys, Lower(technology))
    case Some(i) =>
      assert SelectsKey(technology, i);
      FallbackLists[i]
    case None => TemplateQuestions(technology)
  }

  /** The reply post-processing for a reply that is not JSON: the stripped
      reply split into lines, each line stripped, blank lines dropped, at most
      five kept. */
  function ReplyLines(content: string): (lines: seq<string>)
    ensures |lines| == Min(|SplitStrip(Strip(content), '\n')|, MaxQuestions)
    ensures forall k :: 0 <= k < |lines| ==> lines[k] != "" && IsTrimmed(lines[k]) && '\n' !in lines[k]
    ensures lines <= SplitStrip(Strip(content), '\n')
  {
    Take(SplitStrip(Strip(content), '\n'), MaxQuestions)
  }

  /** `generate_questions_for_tech`: without a key, or when the call fails,
      the fallback questions; otherwise at most five questions from the reply,
      a JSON array kept as it is, other text split into lines. */
  function GenerateQuestionsForTech(technology: string, hasKey: bool, reply: ApiReply): (qs: seq<string>)
    ensures |qs| <= MaxQuestions
    ensures !hasKey || reply.CallFailed? ==> qs == FallbackQuestions(technology)
    ensures hasKey && reply.JsonArray? ==> qs <= reply.items && |qs| == Min(|reply.items|, MaxQuestions)
    ensures hasKey && reply.NotJson? ==> qs == ReplyLines(reply.content)
  {
    if !hasKey then FallbackQuestions(technology)
    else match reply
      case CallFailed => FallbackQuestions(technology)
      case JsonArray(items) => Take(items, MaxQuestions)
      case NotJson(content) => ReplyLines(content)
  }

  /** A name in which some key occurs gets the list of that key or of an
      earlier one, never the template questions. */
  lemma KeyFoundMeansTableList(technology: string, i: int)
    requires 0 <= i < |FallbackKeys| && Contains(FallbackKeys[i], Lower(technology))
    ensures exists j :: 0 <= j <= i && FallbackQuestions(technology) == FallbackLists[j]
  {
    var r := FirstContained(FallbackKeys, Lower(technology));
    assert r.Some? && r.value <= i;
    assert SelectsKey(technology, r.value);
    assert 0 <= r.value <= i && FallbackQuestions(technology) == FallbackLists[r.value];
  }

  lemma FallbackPython()
    ensures FallbackQuestions("Python") == PythonQuestions
  {
    assert Lower("Python") == "python";
    ContainsSelf("python");
    assert SelectsKey("Python", 0);
  }

  lemma FallbackJavaScript()
    ensures FallbackQuestions("JavaScript") == JavaScriptQuestions
  {
    assert Lower("JavaScript") == "javascript";
    MissingCharacter("python", "javascript", 'y');
    ContainsSelf("javascript");
    assert SelectsKey("JavaScript", 1);
  }

  lemma FallbackNode()
    ensures FallbackQuestions("Node.js") == NodeQuestions
  {
    assert Lower("Node.js") == "node.js";
    NodeIsLastKey();
    assert SelectsKey("Node.js", 3);
  }

  /** Only the last key of the table occurs in "node.js". */
  lemma NodeIsLastKey()
    ensures forall j :: 0 <= j < 3 ==> !Contains(FallbackKeys[j], "node.js")
    ensures Contains(FallbackKeys[3], "node.js")
  {
    NoEarlierKeyInNode();
    ContainsSelf("node.js");
  }

  lemma NoEarlierKeyInNode()
    ensures !Contains("python", "node.js") && !Contains("javascript", "node.js") && !Contains("react", "node.js")
  {
    MissingCharacter("python", "node.js", 'y');
    MissingCharacter("javascript", "node.js", 'a');
    MissingCharacter("react", "node.js", 'r');
  }

  lemma FallbackRust()
    ensures FallbackQuestions("Rust") == TemplateQuestions("Rust")
    ensures forall k :: 0 <= k < 4 ==> Contains("Rust", FallbackQuestions("Rust")[k])
  {
    assert Lower("Rust") == "rust";
    NoKeyInRust();
  }

  /** No key of the table occurs in "rust". */
  lemma NoKeyInRust()
    ensures forall j :: 0 <= j < |FallbackKeys| ==> !Contains(FallbackKeys[j], "rust")
  {
    MissingCharacter("python", "rust", 'p');
    MissingCharacter("javascript", "rust", 'j');
    MissingCharacter("react", "rust", 'e');
    MissingCharacter("node.js", "rust", 'n');
  }
}
