/**
  `LazyReentrantContextmanager` of borg_sya/util.py: a reentrant context
  manager whose real entry (`_enter`) and exit (`_exit`) happen once, at
  the outermost level, and whose entry can be deferred by one `with`.

  The hooks `_enter` and `_exit` belong to subclasses; the model records
  when they are called and takes them to return normally.
 */
module LazyContexts {

  /** `nesting_level`, `lazy` and `entered`. */
  datatype Manager = Manager(nesting: int, lazy: bool, entered: bool)

  /** `LazyReentrantContextmanager()`. */
  function NewManager(): (m: Manager)
    ensures m.nesting == 0 && !m.lazy && !m.entered
  {
    Manager(0, false, false)
  }

  /** `manager(lazy=x)`: sets the flag and returns the same manager. */
  function Call(m: Manager, lazy: bool): (m': Manager)
    ensures m'.lazy == lazy
    ensures m'.nesting == m.nesting && m'.entered == m.entered
  {
    m.(lazy := lazy)
  }

  /** The manager after `__enter__` or `__exit__`, and whether the hook ran. */
  datatype Transition = Transition(manager: Manager, fired: bool)

  /**
    `__enter__`: a lazy manager only clears `lazy`; otherwise an un-entered
    manager calls `_enter` and becomes entered. The level rises by one in
    every case.
   */
  function Enter(m: Manager): (t: Transition)
    ensures t.manager.nesting == m.nesting + 1
    ensures t.fired <==> !m.lazy && !m.entered
    ensures !t.manager.lazy
    ensures t.manager.entered == (m.entered || !m.lazy)
  {
    if m.lazy then Transition(Manager(m.nesting + 1, false, m.entered), false)
    else if !m.entered then Transition(Manager(m.nesting + 1, m.lazy, true), true)
    else Transition(Manager(m.nesting + 1, m.lazy, m.entered), false)
  }

  /**
    `__exit__`: the level drops by one, and `_exit` runs (clearing
    `entered`) exactly when the manager is entered and the level reaches
    zero.
   */
  function Exit(m: Manager): (t: Transition)
    ensures t.manager.nesting == m.nesting - 1
    ensures t.fired <==> m.entered && m.nesting == 1
    ensures t.manager.entered == (m.entered && m.nesting != 1)
    ensures t.manager.lazy == m.lazy
  {
    var level := m.nesting - 1;
    if m.entered && level == 0 then Transition(Manager(level, m.lazy, false), true)
    else Transition(Manager(level, m.lazy, m.entered), false)
  }

  /** One use of the manager: `manager(lazy=x)`, or entering or leaving a `with` block. */
  datatype Op = CallOp(lazy: bool) | EnterOp | ExitOp

  /** The manager after a sequence of uses, with the number of `_enter` and `_exit` calls. */
  datatype Run = Run(manager: Manager, enters: nat, exits: nat)

  /** How far one use moves the level. */
  function Delta(op: Op): int {
    match op
    case CallOp(_) => 0
    case EnterOp => 1
    case ExitOp => -1
  }

  /** One use of the manager. */
  function Step(m: Manager, op: Op): (t: Transition)
    ensures t.manager.nesting == m.nesting + Delta(op)
    ensures Consistent(m) && (op.ExitOp? ==> m.nesting >= 1) ==> Consistent(t.manager)
    ensures Consistent(m) ==>
              (if t.fired && op.EnterOp? then 1 else 0) - (if t.fired && op.ExitOp? then 1 else 0)
              == (if t.manager.entered then 1 else 0) - (if m.entered then 1 else 0)
  {
    match op
    case CallOp(lazy) => Transition(Call(m, lazy), false)
    case EnterOp => Enter(m)
    case ExitOp => Exit(m)
  }

  function Replay(m: Manager, ops: seq<Op>): (r: Run)
    ensures r.enters <= |ops| && r.exits <= |ops|
    decreases |ops|
  {
    if |ops| == 0 then Run(m, 0, 0)
    else
      var t := Step(m, ops[0]);
      var r := Replay(t.manager, ops[1..]);
      Run(r.manager,
          r.enters + (if t.fired && ops[0].EnterOp? then 1 else 0),
          r.exits + (if t.fired && ops[0].ExitOp? then 1 else 0))
  }

  /** Enters minus exits over a sequence of uses. */
  function Depth(ops: seq<Op>): int
    decreases |ops|
  {
    if |ops| == 0 then 0 else Delta(ops[0]) + Depth(ops[1..])
  }

  /** No prefix of the sequence leaves more blocks than `level` were open. */
  predicate NoUnderflow(ops: seq<Op>, level: int)
    decreases |ops|
  {
    if |ops| == 0 then true
    else
      match ops[0]
      case CallOp(_) => NoUnderflow(ops[1..], level)
      case EnterOp => NoUnderflow(ops[1..], level + 1)
      case ExitOp => level >= 1 && NoUnderflow(ops[1..], level - 1)
  }

  /** Properly nested `with` blocks, with calls anywhere in between. */
  predicate Balanced(ops: seq<Op>) {
    NoUnderflow(ops, 0) && Depth(ops) == 0
  }

  /** The manager's invariant: it is entered only inside at least one block. */
  predicate Consistent(m: Manager) {
    m.nesting >= 0 && (m.entered ==> m.nesting >= 1)
  }

  /**
    Over any sequence that never leaves more blocks than are open, the level
    moves by the depth of the sequence, the invariant holds throughout, and
    `_enter` has run once more than `_exit` exactly while the manager is
    entered.
   */
  lemma {:induction false} ReplayInvariant(m: Manager, ops: seq<Op>)
    requires Consistent(m) && NoUnderflow(ops, m.nesting)
    ensures var r := Replay(m, ops);
            && r.manager.nesting == m.nesting + Depth(ops)
            && Consistent(r.manager)
            && r.enters - r.exits == (if r.manager.entered then 1 else 0) - (if m.entered then 1 else 0)
    decreases |ops|
  {
    if |ops| > 0 {
      ReplayInvariant(Step(m, ops[0]).manager, ops[1..]);
    }
  }

  /**
    Any balanced use of a new manager leaves it at level zero and not
    entered, with `_enter` and `_exit` called equally often.
   */
  lemma BalancedRestores(ops: seq<Op>)
    requires Balanced(ops)
    ensures var r := Replay(NewManager(), ops);
            && r.manager.nesting == 0
            && !r.manager.entered
            && r.enters == r.exits
  {
    ReplayInvariant(NewManager(), ops);
  }

  /** Only the outermost of nested blocks enters and exits. */
  lemma NestedBlocks()
    ensures Replay(NewManager(), [EnterOp, EnterOp, ExitOp, ExitOp]) == Run(Manager(0, false, false), 1, 1)
  {
    var ops := [EnterOp, EnterOp, ExitOp, ExitOp];
    assert ops[1..] == [EnterOp, ExitOp, ExitOp];
    assert ops[1..][1..] == [ExitOp, ExitOp];
    assert ops[1..][1..][1..] == [ExitOp];
    assert ops[1..][1..][1..][1..] == [];
  }

  /**
    Deferred entry: `with m(lazy=True):` does not enter, the next nested
    `with m:` does, and the exit still happens when the outer block is left.
   */
  lemma DeferredEntry()
    ensures var ops := [CallOp(true), EnterOp, EnterOp, ExitOp];
            var r := Replay(NewManager(), ops);
            r == Run(Manager(1, false, true), 1, 0)
    ensures var ops := [CallOp(true), EnterOp, EnterOp, ExitOp, ExitOp];
            var r := Replay(NewManager(), ops);
            r == Run(Manager(0, false, false), 1, 1)
  {
    var ops := [CallOp(true), EnterOp, EnterOp, ExitOp, ExitOp];
    assert ops[1..] == [EnterOp, EnterOp, ExitOp, ExitOp];
    assert ops[1..][1..] == [EnterOp, ExitOp, ExitOp];
    assert ops[1..][1..][1..] == [ExitOp, ExitOp];
    assert ops[1..][1..][1..][1..] == [ExitOp];
    assert ops[1..][1..][1..][1..][1..] == [];
    var short := [CallOp(true), EnterOp, EnterOp, ExitOp];
    assert short[1..] == [EnterOp, EnterOp, ExitOp];
    assert short[1..][1..] == [EnterOp, ExitOp];
    assert short[1..][1..][1..] == [ExitOp];
    assert short[1..][1..][1..][1..] == [];
  }

  /** A lazy block with nothing nested inside never enters, so leaving it never exits. */
  lemma LazyBlockAlone()
    ensures Replay(NewManager(), [CallOp(true), EnterOp, ExitOp]) == Run(Manager(0, false, false), 0, 0)
  {
    var ops := [CallOp(true), EnterOp, ExitOp];
    assert ops[1..] == [EnterOp, ExitOp];
    assert ops[1..][1..] == [ExitOp];
    assert ops[1..][1..][1..] == [];
  }
}
