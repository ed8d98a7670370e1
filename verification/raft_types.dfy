/** Values exchanged and stored by the metadata Raft group. */
module RaftTypes {
  import opened Collections

  /** A node identity; the empty string stands for "nobody", as in VotedFor. */
  type NodeId = string

  datatype CommandKind = AdvanceEpoch | BeginJoint | FinalizeJoint | UnknownKind

  datatype NodeCapacity = NodeCapacity(node: NodeId, capacity: nat)

  /** A capacity manifest as decoded JSON; Malformed is text that does not decode canonically. */
  datatype Manifest = NoManifest | Capacities(items: seq<NodeCapacity>) | Malformed

  datatype View = View(membership: string, catalog: string, placement: string, capacity: Manifest)

  datatype Command = Command(kind: CommandKind, epoch: nat, view: View,
                             oldVoters: seq<NodeId>, newVoters: seq<NodeId>)

  datatype Entry = Entry(term: nat, command: Command)

  type Log = seq<Entry>

  /** The term of the entry at 1-based index `i`; index 0 precedes the log and has term 0. */
  function TermAt(log: Log, i: nat): nat
    requires i <= |log|
  {
    if i == 0 then 0 else log[i - 1].term
  }

  function LastTerm(log: Log): nat
  {
    TermAt(log, |log|)
  }

  /** A strict majority of `members`, each member counted once. */
  predicate IsQuorum(members: set<NodeId>, acks: set<NodeId>)
  {
    acks <= members && 2 * |acks| > |members|
  }

  /** Two majorities of one set share a member. */
  lemma QuorumsMeet(members: set<NodeId>, a: set<NodeId>, b: set<NodeId>) returns (v: NodeId)
    requires IsQuorum(members, a) && IsQuorum(members, b)
    ensures v in a && v in b
  {
    if a * b == {} {
      SubsetSize(a + b, members);
      assert false;
    }
    v :| v in a * b;
  }
}
