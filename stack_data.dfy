/**
 * The abstract stack of stack_visualizer.py (class StackData): a list of slot
 * labels, bottom first, and two integer pointers, esp (the top slot) and ebp
 * (the reference slot for offset labels), both -1 at the start.
 */
module StackModel {
  import opened Wrappers

  /** The value of a StackData object's fields at one moment. */
  datatype Snapshot = Snapshot(esp: int, ebp: int, content: seq<string>, nr: int)

  /** Python's "pop from empty list" IndexError. */
  datatype PopError = IndexError

  /** The frame number given to the constructor: `nr if nr else 0`, so None and 0 both give 0. */
  function InitialNr(nr: Option<int>): (n: int)
    ensures n != 0 <==> nr.Some? && nr.value != 0
    ensures n != 0 ==> n == nr.value
  {
    match nr
    case Some(v) => v
    case None => 0
  }

  /** The state a freshly constructed StackData has. */
  function Initial(nr: Option<int>): Snapshot {
    Snapshot(-1, -1, [], InitialNr(nr))
  }

  /** The pointer invariant the source intends: esp indexes the top slot, -1 when empty. */
  predicate Valid(s: Snapshot) {
    s.esp == |s.content| - 1
  }

  /** The state after `push(entry)`. */
  function Pushed(s: Snapshot, entry: string): Snapshot {
    s.(esp := s.esp + 1, content := s.content + [entry])
  }

  /**
   * The state after `pop()` and what it returns. esp is decremented before the
   * list is popped, so on an empty list the decrement happens and then the
   * IndexError is raised.
   */
  function Popped(s: Snapshot): (Snapshot, Result<string, PopError>) {
    if s.content == [] then
      (s.(esp := s.esp - 1), Err(IndexError))
    else
      (s.(esp := s.esp - 1, content := s.content[..|s.content| - 1]), Ok(s.content[|s.content| - 1]))
  }

  /** A push followed by a pop gives back the pushed entry and the state before the push. */
  lemma PushPopRoundTrip(s: Snapshot, entry: string)
    ensures Popped(Pushed(s, entry)) == (s, Ok(entry))
  {
    assert (s.content + [entry])[..|s.content|] == s.content;
  }

  /** A push keeps the pointer invariant; a pop keeps it exactly when the stack was not empty. */
  lemma PointerInvariantStep(s: Snapshot, entry: string)
    requires Valid(s)
    ensures Valid(Pushed(s, entry))
    ensures Valid(Popped(s).0) <==> s.content != []
    ensures Popped(s).1.Err? <==> s.content == []
  {
  }

  /** One instruction the stack can execute. */
  datatype StackOp = PushOp(entry: string) | PopOp

  /** Runs a sequence of instructions, stopping at the first failing pop. */
  function RunOps(s: Snapshot, ops: seq<StackOp>): Result<Snapshot, PopError>
    decreases |ops|
  {
    if ops == [] then Ok(s) else
      match ops[0]
      case PushOp(entry) => RunOps(Pushed(s, entry), ops[1..])
      case PopOp =>
        var (t, r) := Popped(s);
        if r.Err? then Err(r.error) else RunOps(t, ops[1..])
  }

  /** The number of pushes minus the number of pops in `ops`. */
  function NetPushes(ops: seq<StackOp>): int {
    if ops == [] then 0 else (if ops[0].PushOp? then 1 else -1) + NetPushes(ops[1..])
  }

  /**
   * From a state that satisfies the pointer invariant, any sequence of pushes
   * and non-failing pops keeps it, leaves ebp and nr alone and changes the
   * height by the net number of pushes.
   */
  lemma {:induction false} RunOpsKeepsInvariant(s: Snapshot, ops: seq<StackOp>)
    requires Valid(s)
    ensures RunOps(s, ops).Ok? ==>
              var t := RunOps(s, ops).value;
              Valid(t) && t.ebp == s.ebp && t.nr == s.nr &&
              |t.content| == |s.content| + NetPushes(ops)
    decreases |ops|
  {
    if ops != [] {
      match ops[0]
      case PushOp(entry) =>
        RunOpsKeepsInvariant(Pushed(s, entry), ops[1..]);
      case PopOp =>
        if s.content != [] {
          RunOpsKeepsInvariant(Popped(s).0, ops[1..]);
        }
    }
  }

  /** Starting from a fresh stack, esp tracks the top slot and ebp stays -1 for as long as no pop fails. */
  lemma FromInitial(nr: Option<int>, ops: seq<StackOp>)
    ensures RunOps(Initial(nr), ops).Ok? ==>
              var t := RunOps(Initial(nr), ops).value;
              t.esp == |t.content| - 1 && t.ebp == -1
  {
    RunOpsKeepsInvariant(Initial(nr), ops);
  }

  /** The stack object; push and pop change esp and content in place. */
  class StackData {
    var esp: int
    var ebp: int
    var content: seq<string>
    var nr: int
    var lastAction: string

    function Model(): Snapshot
      reads this
    {
      Snapshot(esp, ebp, content, nr)
    }

    constructor (nr: Option<int>)
      ensures Model() == Initial(nr) && lastAction == ""
    {
      esp := -1;
      ebp := -1;
      content := [];
      this.nr := InitialNr(nr);
      lastAction := "";
    }

    /** Replaces the content; the pointers are left as they were, so the invariant may break. */
    method BuildFromList(l: seq<string>)
      modifies this
      ensures content == l
      ensures esp == old(esp) && ebp == old(ebp) && nr == old(nr) && lastAction == old(lastAction)
    {
      content := l;
    }

    /** Overwrites esp without looking at the content. */
    method SetEsp(esp: int)
      modifies this
      ensures this.esp == esp
      ensures content == old(content) && ebp == old(ebp) && nr == old(nr) && lastAction == old(lastAction)
    {
      this.esp := esp;
    }

    /** Overwrites ebp without looking at the content. */
    method SetEbp(ebp: int)
      modifies this
      ensures this.ebp == ebp
      ensures content == old(content) && esp == old(esp) && nr == old(nr) && lastAction == old(lastAction)
    {
      this.ebp := ebp;
    }

    method Push(entry: string)
      modifies this
      ensures esp == old(esp) + 1 && content == old(content) + [entry]
      ensures ebp == old(ebp) && nr == old(nr) && lastAction == old(lastAction)
      ensures Model() == Pushed(old(Model()), entry)
    {
      esp := esp + 1;
      content := content + [entry];
    }

    method Pop() returns (r: Result<string, PopError>)
      modifies this
      ensures esp == old(esp) - 1
      ensures old(content) == [] ==> r == Err(IndexError) && content == []
      ensures old(content) != [] ==>
                r == Ok(old(content)[|old(content)| - 1]) && content == old(content)[..|old(content)| - 1]
      ensures ebp == old(ebp) && nr == old(nr) && lastAction == old(lastAction)
      ensures (Model(), r) == Popped(old(Model()))
    {
      esp := esp - 1;
      if content == [] {
        r := Err(IndexError);
      } else {
        r := Ok(content[|content| - 1]);
        content := content[..|content| - 1];
      }
    }
  }

  /** On the object: push(x) then pop() returns x and leaves every field as it was. */
  method PushThenPop(s: StackData, entry: string) returns (r: Result<string, PopError>)
    modifies s
    ensures r == Ok(entry)
    ensures s.Model() == old(s.Model()) && s.lastAction == old(s.lastAction)
  {
    s.Push(entry);
    r := s.Pop();
  }
}
