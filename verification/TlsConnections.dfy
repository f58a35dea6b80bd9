/** The list of TLS connections of src/tcp_bearssl.cpp: every entry point looks its
    connection up by the lwIP control block.  The specification is on sequences, the
    newest connection first. */
module TlsConnections {

  /** One TLS state: the control block it belongs to, and which state it is. */
  datatype State = State(tcp: nat, id: nat)

  datatype Option<T> = None | Some(value: T)

  /** The position of the first state of `tcp`, or the length when there is none. */
  function Position(s: seq<State>, tcp: nat): (i: nat)
    ensures i <= |s| && (i < |s| ==> s[i].tcp == tcp)
  {
    if s == [] || s[0].tcp == tcp then 0 else 1 + Position(s[1..], tcp)
  }

  function Found(s: seq<State>, tcp: nat): Option<State> {
    var i := Position(s, tcp);
    if i < |s| then Some(s[i]) else None
  }

  function Without(s: seq<State>, tcp: nat): seq<State> {
    var i := Position(s, tcp);
    if i < |s| then s[..i] + s[i + 1..] else s
  }

  // ---- each control block sees a stack of its own

  datatype Op = New(state: State) | Free(tcp: nat)

  function RunOps(s: seq<State>, ops: seq<Op>): seq<State>
    decreases |ops|
  {
    if ops == [] then s
    else
      var s' := match ops[0]
        case New(state) => [state] + s
        case Free(tcp) => Without(s, tcp);
      RunOps(s', ops[1..])
  }

  /** The states of one control block, newest first. */
  function Of(s: seq<State>, tcp: nat): seq<State> {
    if s == [] then [] else (if s[0].tcp == tcp then [s[0]] else []) + Of(s[1..], tcp)
  }

  /** A stack that hears only the operations on `tcp`. */
  function RunStack(stack: seq<State>, ops: seq<Op>, tcp: nat): seq<State>
    decreases |ops|
  {
    if ops == [] then stack
    else
      var stack' := match ops[0]
        case New(state) => if state.tcp == tcp then [state] + stack else stack
        case Free(freed) => if freed == tcp && stack != [] then stack[1..] else stack;
      RunStack(stack', ops[1..], tcp)
  }

  lemma {:induction false} FoundIsNewest(s: seq<State>, tcp: nat)
    ensures Found(s, tcp) == if Of(s, tcp) == [] then None else Some(Of(s, tcp)[0])
  {
    if s != [] && s[0].tcp != tcp {
      FoundIsNewest(s[1..], tcp);
      assert Of(s, tcp) == Of(s[1..], tcp);
    }
  }

  lemma WithoutHead(s: seq<State>, freed: nat)
    requires s != []
    ensures Without(s, freed) == if s[0].tcp == freed then s[1..] else [s[0]] + Without(s[1..], freed)
  {
    if s[0].tcp != freed {
      var i := Position(s[1..], freed);
      if i < |s[1..]| {
        CutBehindHead(s[0], s[1..], i);
      }
      assert [s[0]] + s[1..] == s;
    }
  }

  lemma CutBehindHead(e: State, s: seq<State>, i: nat)
    requires i < |s|
    ensures ([e] + s)[..i + 1] + ([e] + s)[i + 2..] == [e] + (s[..i] + s[i + 1..])
  {
  }

  lemma {:induction false} WithoutOf(s: seq<State>, freed: nat, tcp: nat)
    ensures Of(Without(s, freed), tcp) ==
      if freed == tcp && Of(s, tcp) != [] then Of(s, tcp)[1..] else Of(s, tcp)
  {
    if s != [] {
      WithoutHead(s, freed);
      HeadOf(s, tcp);
      if s[0].tcp != freed {
        WithoutOf(s[1..], freed, tcp);
        PushOf(s[0], Without(s[1..], freed), tcp);
      }
    }
  }

  lemma PushOf(e: State, s: seq<State>, tcp: nat)
    ensures Of([e] + s, tcp) == if e.tcp == tcp then [e] + Of(s, tcp) else Of(s, tcp)
  {
    HeadOf([e] + s, tcp);
    assert ([e] + s)[1..] == s;
  }

  lemma HeadOf(s: seq<State>, tcp: nat)
    requires s != []
    ensures Of(s, tcp) == if s[0].tcp == tcp then [s[0]] + Of(s[1..], tcp) else Of(s[1..], tcp)
  {
  }

  lemma {:induction false} RunOf(s: seq<State>, ops: seq<Op>, tcp: nat)
    ensures Of(RunOps(s, ops), tcp) == RunStack(Of(s, tcp), ops, tcp)
    decreases |ops|
  {
    if ops != [] {
      match ops[0] {
        case New(state) =>
          assert ([state] + s)[1..] == s;
          HeadOf([state] + s, tcp);
          RunOf([state] + s, ops[1..], tcp);
        case Free(freed) =>
          WithoutOf(s, freed, tcp);
          RunOf(Without(s, freed), ops[1..], tcp);
      }
    }
  }

  /** After any run of opening and freeing connections, what is found for a control
      block is its newest state not yet freed, whatever the others did. */
  lemma LookupSeesOwnStack(ops: seq<Op>, tcp: nat)
    ensures var stack := RunStack([], ops, tcp);
      Found(RunOps([], ops), tcp) == if stack == [] then None else Some(stack[0])
  {
    RunOf([], ops, tcp);
    FoundIsNewest(RunOps([], ops), tcp);
  }

  /** Freeing undoes opening. */
  lemma FreeUndoesNew(s: seq<State>, state: State)
    ensures RunOps(s, [New(state), Free(state.tcp)]) == s
  {
    var ops := [New(state), Free(state.tcp)];
    assert ops[1..] == [Free(state.tcp)] && ops[1..][1..] == [];
    assert Without([state] + s, state.tcp) == s;
    assert RunOps(s, ops) == RunOps([state] + s, ops[1..]) == RunOps(s, []);
  }

  // ---- the list itself

  class Node {
    const state: State
    var next: Node?

    constructor (state: State, next: Node?)
      ensures this.state == state && this.next == next
    {
      this.state, this.next := state, next;
    }
  }

  function States(nodes: seq<Node>): seq<State> {
    seq(|nodes|, k requires 0 <= k < |nodes| => nodes[k].state)
  }

  lemma {:induction false} PositionFrom(s: seq<State>, i: nat, tcp: nat)
    requires i <= |s| && forall k :: 0 <= k < i ==> s[k].tcp != tcp
    ensures Position(s, tcp) == i + Position(s[i..], tcp)
    decreases i
  {
    if i == 0 {
      assert s[0..] == s;
    } else {
      PositionFrom(s[1..], i - 1, tcp);
      assert s[1..][i - 1..] == s[i..];
    }
  }

  lemma StatesCut(nodes: seq<Node>, i: nat)
    requires i < |nodes|
    ensures States(nodes[..i] + nodes[i + 1..]) == States(nodes)[..i] + States(nodes)[i + 1..]
  {
    var l, r := States(nodes[..i] + nodes[i + 1..]), States(nodes)[..i] + States(nodes)[i + 1..];
    assert |l| == |r| && forall k :: 0 <= k < |l| ==> l[k] == r[k];
  }

  class Connections {
    var head: Node?               // tcp_ssl_pcbs
    ghost var nodes: seq<Node>    // the nodes reachable from it, in order

    ghost predicate Valid()
      reads this, nodes
    {
      && head == (if nodes == [] then null else nodes[0])
      && (forall j, k :: 0 <= j < k < |nodes| ==> nodes[j] != nodes[k])
      && (forall k {:trigger nodes[k].next} :: 0 <= k < |nodes| ==>
            nodes[k].next == if k + 1 < |nodes| then nodes[k + 1] else null)
    }

    constructor ()
      ensures Valid() && nodes == []
    {
      head, nodes := null, [];
    }

    /** What `tcp_ssl_new_client` and `tcp_ssl_new_server` do to the list. */
    method Insert(state: State)
      requires Valid()
      modifies this
      ensures Valid() && States(nodes) == [state] + old(States(nodes))
    {
      ghost var before := States(nodes);
      var node := new Node(state, head);
      head := node;
      nodes := [node] + nodes;
      assert States(nodes) == [state] + before;
    }

    /** `find_ssl_pcb` */
    method Find(tcp: nat) returns (node: Node?)
      requires Valid()
      ensures Found(States(nodes), tcp) == if node == null then None else Some(node.state)
      ensures node != null ==> node in nodes
    {
      node := head;
      ghost var i := 0;
      while node != null
        invariant 0 <= i <= |nodes| && node == (if i < |nodes| then nodes[i] else null)
        invariant forall k :: 0 <= k < i ==> States(nodes)[k].tcp != tcp
        decreases |nodes| - i
      {
        if node.state.tcp == tcp {
          PositionFrom(States(nodes), i, tcp);
          return;
        }
        node := node.next;
        i := i + 1;
      }
      PositionFrom(States(nodes), i, tcp);
    }

    /** Unlink `nodes[i]`. */
    method Unlink(node: Node, prev: Node?, ghost i: nat)
      requires Valid() && i < |nodes| && node == nodes[i] && prev == (if i == 0 then null else nodes[i - 1])
      modifies this, nodes
      ensures Valid() && nodes == old(nodes[..i] + nodes[i + 1..])
    {
      if prev != null {
        prev.next := node.next;
      } else {
        head := node.next;
      }
      nodes := nodes[..i] + nodes[i + 1..];
    }

    /** `tcp_ssl_free` */
    method Free(tcp: nat) returns (code: int)
      requires Valid()
      modifies this, nodes
      ensures Valid() && States(nodes) == Without(old(States(nodes)), tcp)
      ensures code == if Found(old(States(nodes)), tcp).Some? then 0 else -1
    {
      var iter, prev: Node? := head, null;
      ghost var i := 0;
      ghost var before := States(nodes);
      while iter != null
        invariant 0 <= i <= |nodes| && iter == (if i < |nodes| then nodes[i] else null)
        invariant prev == (if i == 0 then null else nodes[i - 1])
        invariant forall k :: 0 <= k < i ==> before[k].tcp != tcp
        decreases |nodes| - i
      {
        if iter.state.tcp == tcp {
          PositionFrom(before, i, tcp);
          StatesCut(nodes, i);
          Unlink(iter, prev, i);
          return 0;
        }
        prev := iter;
        iter := iter.next;
        i := i + 1;
      }
      PositionFrom(before, i, tcp);
      return -1;
    }
  }
}
