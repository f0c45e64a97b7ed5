/** The conversation log kept for the session, the context string built from
    its most recent entries, and the exit keywords typed into the chat box. */
module Conversation {
  import opened Text

  datatype Role = User | System

  /** One logged message. The source also stamps each entry with the time. */
  datatype Entry = Entry(role: Role, message: string)

  /** `role.upper()` */
  function RoleLabel(r: Role): string {
    match r
    case User => "USER"
    case System => "SYSTEM"
  }

  /** The context is built from at most this many entries. */
  const ContextSize: nat := 10

  /** `history[-10:]`: the most recent entries, oldest first. */
  function RecentEntries(history: seq<Entry>): (w: seq<Entry>)
    ensures |w| == if |history| <= ContextSize then |history| else ContextSize
    ensures w == history[|history| - |w|..]
  {
    if |history| <= ContextSize then history else history[|history| - ContextSize..]
  }

  /** One line of context: `ROLE: message` and a newline. */
  function EntryLine(e: Entry): string {
    RoleLabel(e.role) + ": " + e.message + "\n"
  }

  /** The lines of `entries`, in order. */
  function Render(entries: seq<Entry>): string {
    if entries == [] then "" else Render(entries[..|entries| - 1]) + EntryLine(entries[|entries| - 1])
  }

  /** Rendering two runs of entries one after the other renders each in turn. */
  lemma {:induction false} RenderAppend(a: seq<Entry>, b: seq<Entry>)
    ensures Render(a + b) == Render(a) + Render(b)
  {
    if b == [] {
      assert a + b == a;
    } else {
      var b', x := b[..|b| - 1], b[|b| - 1];
      assert b == b' + [x];
      assert a + b == (a + b') + [x];
      RenderAppend(a, b');
      RenderSnoc(a + b', x);
      RenderSnoc(b', x);
      ConcatAssoc(Render(a), Render(b'), EntryLine(x));
    }
  }

  /** Rendering one more entry appends its line. */
  lemma RenderSnoc(w: seq<Entry>, e: Entry)
    ensures Render(w + [e]) == Render(w) + EntryLine(e)
  {
    assert (w + [e])[..|w|] == w;
  }

  /** Concatenation regroups; stated on its own so that `RenderAppend` stays
      cheap to prove. */
  lemma ConcatAssoc(x: string, y: string, z: string)
    ensures (x + y) + z == x + (y + z)
  {
  }

  /** The context string of a history: the last ten entries, rendered. */
  function Context(history: seq<Entry>): (c: string)
    ensures |history| <= ContextSize ==> c == Render(history)
  {
    Render(RecentEntries(history))
  }

  /** Once ten entries have been logged, anything older no longer reaches the context. */
  lemma ContextForgetsOlderEntries(older: seq<Entry>, recent: seq<Entry>)
    requires |recent| >= ContextSize
    ensures Context(older + recent) == Context(recent)
  {
    RecentIgnoresOlder(older, recent);
  }

  lemma RecentIgnoresOlder(older: seq<Entry>, recent: seq<Entry>)
    requires |recent| >= ContextSize
    ensures RecentEntries(older + recent) == RecentEntries(recent)
  {
    var h := older + recent;
    var w := RecentEntries(h);
    assert forall k :: 0 <= k < ContextSize ==> w[k] == recent[|recent| - ContextSize + k];
  }

  /** The context after logging an entry ends with that entry's line. */
  lemma ContextEndsWithLatest(history: seq<Entry>, e: Entry)
    ensures var c := Context(history + [e]);
            |c| >= |EntryLine(e)| && c[|c| - |EntryLine(e)|..] == EntryLine(e)
  {
    var w := RecentEntries(history + [e]);
    assert w[|w| - 1] == e;
  }

  /** The keywords that end the conversation when typed into the chat box. */
  const ExitKeywords: seq<string> := ["exit", "quit", "bye", "goodbye", "stop"]

  /** `_check_exit_command`'s test: some keyword occurs in the lower-cased input. */
  function IsExitCommand(input: string): (exit: bool)
    ensures exit <==> exists k :: 0 <= k < |ExitKeywords| && Contains(ExitKeywords[k], Lower(input))
  {
    FirstContained(ExitKeywords, Lower(input)).Some?
  }

  /** Matching ignores case: "I need to EXIT now" exits. */
  lemma ExitIgnoresCase()
    ensures IsExitCommand("I need to EXIT now")
  {
    assert Lower("I need to EXIT now") == "i need to exit now";
    assert OccursAt("exit", "i need to exit now", 10);
  }

  /** Matching ignores word boundaries: "Nonstop" exits because it contains "stop". */
  lemma ExitInsideWord()
    ensures IsExitCommand("Nonstop")
  {
    assert Lower("Nonstop") == "nonstop";
    assert OccursAt("stop", "nonstop", 3);
  }

  /** Text without any keyword does not exit. */
  lemma NonExitExample()
    ensures !IsExitCommand("Hello")
  {
    assert Lower("Hello") == "hello";
    NoKeywordInHello();
  }

  lemma NoKeywordInHello()
    ensures forall k :: 0 <= k < |ExitKeywords| ==> !Contains(ExitKeywords[k], "hello")
  {
    MissingCharacter("exit", "hello", 'x');
    MissingCharacter("quit", "hello", 'q');
    MissingCharacter("bye", "hello", 'b');
    MissingCharacter("goodbye", "hello", 'g');
    MissingCharacter("stop", "hello", 's');
  }
}
