/** The store of conversations and their branches: create, branch, detach, and the cascading delete. */
module Conversations {

  /** A nullable integer column. */
  datatype MaybeId = Null | Id(value: nat)

  datatype Message = Message(role: string, content: string)

  datatype Row = Row(owner: MaybeId, parent: MaybeId, title: string, messages: seq<Message>)

  datatype Store = Store(rows: map<nat, Row>, nextId: nat)

  datatype Request =
    | Create(owner: MaybeId, title: string)
    | Branch(source: nat, upTo: int, target: MaybeId, account: nat)
    | Detach(id: nat, account: nat)
    | Delete(id: nat, account: nat)

  // ----- Specification -----

  predicate Owned(rows: map<nat, Row>, id: nat, account: nat) {
    id in rows && rows[id].owner == Id(account)
  }

  /** `c` is `root` or is reached from `root` by branching, possibly in several steps. */
  predicate Descends(rows: map<nat, Row>, root: nat, c: nat)
    decreases c
  {
    || c == root
    || (c in rows && rows[c].parent.Id? && rows[c].parent.value < c && Descends(rows, root, rows[c].parent.value))
  }

  /** The rows left when a conversation and all its descendants are removed. */
  function WithoutDescendants(rows: map<nat, Row>, root: nat): map<nat, Row> {
    map c | c in rows && !Descends(rows, root, c) :: rows[c]
  }

  function Detached(rows: map<nat, Row>, c: nat): map<nat, Row>
    requires c in rows
  {
    rows[c := rows[c].(parent := Null)]
  }

  /** The messages a branch copies: up to and including index `upTo`, and never fewer than one. */
  function Copied(row: Row, upTo: int): seq<Message> {
    var n := (if upTo < 0 then 0 else upTo) + 1;
    if n < |row.messages| then row.messages[..n] else row.messages
  }

  function BranchTitle(title: string): string {
    var t := "Branch \U{00B7} " + title;
    if |t| <= 120 then t else t[..120]
  }

  /** What one request does to the store; a refused request changes nothing. */
  function Apply(s: Store, r: Request): Store {
    match r
    case Create(owner, title) =>
      Store(s.rows[s.nextId := Row(owner, Null, title, [])], s.nextId + 1)
    case Branch(source, upTo, target, account) =>
      if !Owned(s.rows, source, account) then s
      else
        var upto := Copied(s.rows[source], upTo);
        if upto == [] then s
        else if target.Id? then
          if !Owned(s.rows, target.value, account) then s
          else
            var t := s.rows[target.value];
            s.(rows := s.rows[target.value := t.(messages := t.messages + upto)])
        else
          var title := BranchTitle(s.rows[source].title);
          Store(s.rows[s.nextId := Row(Id(account), Id(source), title, upto)], s.nextId + 1)
    case Detach(c, account) =>
      if Owned(s.rows, c, account) then s.(rows := Detached(s.rows, c)) else s
    case Delete(root, account) =>
      if Owned(s.rows, root, account) then s.(rows := WithoutDescendants(s.rows, root)) else s
  }

  function Run(requests: seq<Request>): Store {
    if requests == [] then Store(map[], 1)
    else Apply(Run(requests[..|requests| - 1]), requests[|requests| - 1])
  }

  /** Every branch points to an existing, older conversation of the same owner. */
  ghost predicate Forest(s: Store) {
    forall c :: c in s.rows ==> c < s.nextId && GoodParent(s.rows, c)
  }

  ghost predicate GoodParent(rows: map<nat, Row>, c: nat)
    requires c in rows
  {
    rows[c].parent.Id? ==>
      && rows[c].parent.value in rows && rows[c].parent.value < c
      && rows[rows[c].parent.value].owner == rows[c].owner
  }

  // ----- Every run keeps the forest -----

  /** After any sequence of requests, parents exist, are older than their branches, and belong to the
      same account. */
  lemma {:induction false} RunKeepsForest(requests: seq<Request>)
    ensures Forest(Run(requests))
  {
    if requests != [] {
      RunKeepsForest(requests[..|requests| - 1]);
    }
  }

  // ----- Kids and descendants -----

  /** The ids below `n` whose parent is `cur`, in ascending order. */
  function Kids(rows: map<nat, Row>, cur: nat, n: nat): seq<nat> {
    if n == 0 then []
    else
      var below := Kids(rows, cur, n - 1);
      if n - 1 in rows && rows[n - 1].parent == Id(cur) then below + [n - 1] else below
  }

  predicate Distinct(s: seq<nat>) {
    forall i, j :: 0 <= i < j < |s| ==> s[i] != s[j]
  }

  lemma {:induction false} KidsMeaning(rows: map<nat, Row>, cur: nat, n: nat)
    ensures forall c :: c in Kids(rows, cur, n) <==> c < n && c in rows && rows[c].parent == Id(cur)
    ensures Distinct(Kids(rows, cur, n))
  {
    if n > 0 {
      KidsMeaning(rows, cur, n - 1);
    }
  }

  lemma {:induction false} DescendantsAreNotOlder(rows: map<nat, Row>, root: nat, c: nat)
    requires Descends(rows, root, c)
    ensures root <= c
    decreases c
  {
    if c != root {
      DescendantsAreNotOlder(rows, root, rows[c].parent.value);
    }
  }

  /** A set of ids that contains the root and every kid of its members contains every descendant. */
  lemma {:induction false} ClosedContainsDescendants(rows: map<nat, Row>, root: nat, ids: set<nat>, c: nat)
    requires root in ids
    requires forall k :: k in rows && HasParentIn(rows, k, ids) ==> k in ids
    requires Descends(rows, root, c)
    ensures c in ids
    decreases c
  {
    if c != root {
      ClosedContainsDescendants(rows, root, ids, rows[c].parent.value);
    }
  }

  // ----- The worklist -----

  predicate HasParentIn(rows: map<nat, Row>, c: nat, ids: set<nat>)
    requires c in rows
  {
    rows[c].parent.Id? && rows[c].parent.value in ids
  }

  /** Between two rounds of the worklist loop, with `open` the ids still on the worklist: only
      descendants have been found, each but the root through a parent that is no longer open, and every
      kid of a found id that is no longer open has been found. */
  ghost predicate Explored(rows: map<nat, Row>, root: nat, found: set<nat>, open: set<nat>) {
    && root in found && open <= found
    && (forall c :: c in found ==> c in rows && Descends(rows, root, c))
    && (forall c :: c in found && c != root ==> c in rows && HasParentIn(rows, c, found - open))
    && (forall c :: c in rows && HasParentIn(rows, c, found - open) ==> c in found)
  }

  lemma {:induction false} ExploreKids(s: Store, root: nat, found: set<nat>, open: set<nat>, cur: nat, kids: set<nat>)
    requires Forest(s) && Explored(s.rows, root, found, open) && cur in open
    requires forall c :: c in kids <==> c in s.rows && s.rows[c].parent == Id(cur)
    ensures kids !! found
    ensures Explored(s.rows, root, found + kids, open - {cur} + kids)
  {
    var rows := s.rows;
    forall kid | kid in kids ensures kid !in found && Descends(rows, root, kid) {
      assert GoodParent(rows, kid);
      DescendantsAreNotOlder(rows, root, cur);
      assert !HasParentIn(rows, kid, found - open);
    }
    var done := found - open;
    assert (found + kids) - (open - {cur} + kids) == done + {cur};
    forall c | c in rows && HasParentIn(rows, c, done + {cur}) ensures c in found + kids {
      if !HasParentIn(rows, c, done) {
        assert rows[c].parent == Id(cur);
      }
    }
    forall c | c in found + kids && c != root ensures HasParentIn(rows, c, done + {cur}) {
      if c in found {
        assert HasParentIn(rows, c, done);
      }
    }
  }

  function Ids(s: seq<nat>): set<nat> {
    set c | c in s
  }

  ghost predicate Collected(rows: map<nat, Row>, root: nat, found: seq<nat>, pending: seq<nat>) {
    Distinct(found) && Distinct(pending) && Explored(rows, root, Ids(found), Ids(pending))
  }

  lemma {:induction false} DistinctAppend(a: seq<nat>, b: seq<nat>)
    requires Distinct(a) && Distinct(b) && Ids(a) !! Ids(b)
    ensures Distinct(a + b) && Ids(a + b) == Ids(a) + Ids(b)
  {
    var all := a + b;
    forall i, j | 0 <= i < j < |all| ensures all[i] != all[j] {
      if i < |a| <= j {
        assert all[i] in Ids(a) && all[j] in Ids(b);
      }
    }
  }

  lemma {:induction false} PoppingLast(pending: seq<nat>)
    requires pending != [] && Distinct(pending)
    ensures Distinct(pending[..|pending| - 1])
    ensures Ids(pending[..|pending| - 1]) == Ids(pending) - {pending[|pending| - 1]}
  {
    var rest := pending[..|pending| - 1];
    assert pending == rest + [pending[|pending| - 1]];
  }

  lemma {:induction false} CollectKids(s: Store, root: nat, found: seq<nat>, pending: seq<nat>)
    requires Forest(s) && Collected(s.rows, root, found, pending) && pending != []
    ensures var cur, rest := pending[|pending| - 1], pending[..|pending| - 1];
            var kids := Kids(s.rows, cur, s.nextId);
            Collected(s.rows, root, found + kids, rest + kids)
  {
    hide Kids, Distinct;
    var cur, rest := pending[|pending| - 1], pending[..|pending| - 1];
    var kids := Kids(s.rows, cur, s.nextId);
    PoppingLast(pending);
    KidsMeaning(s.rows, cur, s.nextId);
    assert cur in Ids(pending);
    assert Ids(pending) <= Ids(found);
    ExploreKids(s, root, Ids(found), Ids(pending), cur, Ids(kids));
    DistinctAppend(found, kids);
    DistinctAppend(rest, kids);
  }

  lemma {:induction false} DistinctFitsIn(ids: seq<nat>, rows: map<nat, Row>)
    requires Distinct(ids) && forall c :: c in ids ==> c in rows
    ensures |ids| <= |rows|
  {
    if ids != [] {
      var last, rest := ids[|ids| - 1], ids[..|ids| - 1];
      var fewer := map c | c in rows && c != last :: rows[c];
      assert rows.Keys == fewer.Keys + {last};
      DistinctFitsIn(rest, fewer);
    }
  }

  lemma {:induction false} AllCollected(rows: map<nat, Row>, root: nat, found: seq<nat>)
    requires Collected(rows, root, found, [])
    ensures forall c :: c in found <==> c in rows && Descends(rows, root, c)
  {
    assert Ids(found) - Ids([]) == Ids(found);
    forall c | c in found ensures c in rows && Descends(rows, root, c) {
      assert c in Ids(found);
    }
    forall c | c in rows && Descends(rows, root, c) ensures c in found {
      assert root in Ids(found);
      ClosedContainsDescendants(rows, root, Ids(found), c);
    }
  }

  datatype Reply = NotFound | NothingToBranch | Success | Branched(id: nat, copied: nat) | Deleted(ids: seq<nat>)

  class ConversationStore {
    var rows: map<nat, Row>
    var nextId: nat

    ghost function State(): Store
      reads this
    {
      Store(rows, nextId)
    }

    ghost predicate Valid()
      reads this
    {
      Forest(State())
    }

    constructor ()
      ensures State() == Run([]) && Valid()
    {
      rows, nextId := map[], 1;
    }

    method Create(owner: MaybeId, title: string) returns (id: nat)
      requires Valid()
      modifies this
      ensures Valid()
      ensures State() == Apply(old(State()), Request.Create(owner, title)) && id == old(nextId)
    {
      id := nextId;
      rows := rows[id := Row(owner, Null, title, [])];
      nextId := nextId + 1;
    }

    method Branch(source: nat, upTo: int, target: MaybeId, account: nat) returns (reply: Reply)
      requires Valid()
      modifies this
      ensures Valid()
      ensures State() == Apply(old(State()), Request.Branch(source, upTo, target, account))
      ensures reply.NotFound? <==>
                || !Owned(old(rows), source, account)
                || (Copied(old(rows)[source], upTo) != [] && target.Id? && !Owned(old(rows), target.value, account))
      ensures reply.NothingToBranch? <==>
                Owned(old(rows), source, account) && Copied(old(rows)[source], upTo) == []
      ensures !reply.NotFound? && !reply.NothingToBranch? ==>
                reply == Branched(if target.Id? then target.value else old(nextId), |Copied(old(rows)[source], upTo)|)
    {
      if !Owned(rows, source, account) { return NotFound; }
      var upto := Copied(rows[source], upTo);
      if upto == [] { return NothingToBranch; }
      assert [] + upto == upto;
      var id;
      if target.Id? {
        if !Owned(rows, target.value, account) { return NotFound; }
        id := target.value;
      } else {
        id := nextId;
        rows := rows[id := Row(Id(account), Id(source), BranchTitle(rows[source].title), [])];
        nextId := nextId + 1;
      }
      rows := rows[id := rows[id].(messages := rows[id].messages + upto)];
      reply := Branched(id, |upto|);
    }

    method Detach(c: nat, account: nat) returns (reply: Reply)
      requires Valid()
      modifies this
      ensures Valid()
      ensures State() == Apply(old(State()), Request.Detach(c, account))
      ensures reply == if Owned(old(rows), c, account) then Success else NotFound
    {
      if !Owned(rows, c, account) { return NotFound; }
      rows := rows[c := rows[c].(parent := Null)];
      reply := Success;
    }

    /** The reported ids are exactly the conversation and its descendants, each once. */
    method Delete(root: nat, account: nat) returns (reply: Reply)
      requires Valid()
      modifies this
      ensures Valid()
      ensures State() == Apply(old(State()), Request.Delete(root, account))
      ensures reply.NotFound? <==> !Owned(old(rows), root, account)
      ensures !reply.NotFound? ==>
                && reply.Deleted? && Distinct(reply.ids)
                && forall c :: c in reply.ids <==> c in old(rows) && Descends(old(rows), root, c)
    {
      if !Owned(rows, root, account) { return NotFound; }
      hide Kids, Descends, Distinct, Collected, Forest;
      var found, pending := [root], [root];
      DistinctCount(rows, root, found, pending);
      while pending != []
        invariant rows == old(rows) && nextId == old(nextId)
        invariant Collected(rows, root, found, pending) && |found| <= |rows|
        decreases |rows| - |found|, |pending|
      {
        CollectKids(State(), root, found, pending);
        var cur := pending[|pending| - 1];
        pending := pending[..|pending| - 1];
        var kids := Kids(rows, cur, nextId);
        found := found + kids;
        pending := pending + kids;
        DistinctCount(rows, root, found, pending);
      }
      AllCollected(rows, root, found);
      DistinctCount(rows, root, found, pending);
      rows := map c | c in rows && c !in found :: rows[c];
      reply := Deleted(found);
    }
  }

  lemma {:induction false} DistinctCount(rows: map<nat, Row>, root: nat, found: seq<nat>, pending: seq<nat>)
    requires Collected(rows, root, found, pending)
    ensures Distinct(found) && |found| <= |rows|
  {
    hide Distinct, Descends;
    forall c | c in found ensures c in rows {
      assert c in Ids(found);
    }
    DistinctFitsIn(found, rows);
  }

  // ----- Main results about delete and detach -----

  /** A cascading delete only ever removes conversations of the account that asked for it. */
  lemma {:induction false} DescendantsShareOwner(s: Store, root: nat, c: nat)
    requires Forest(s) && root in s.rows && c in s.rows && Descends(s.rows, root, c)
    ensures s.rows[c].owner == s.rows[root].owner
    decreases c
  {
    if c != root {
      assert GoodParent(s.rows, c);
      DescendantsShareOwner(s, root, s.rows[c].parent.value);
    }
  }

  /** After a delete no surviving conversation points into the deleted set, and nothing else changed. */
  lemma {:induction false} DeleteLeavesNoDanglingParent(s: Store, root: nat, account: nat, c: nat)
    requires Forest(s) && Owned(s.rows, root, account)
    ensures var after := Apply(s, Delete(root, account)).rows;
            && (c in after <==> c in s.rows && !Descends(s.rows, root, c))
            && (c in after ==> after[c] == s.rows[c])
            && (c in after && after[c].parent.Id? ==> after[c].parent.value in after)
  {
    if c in s.rows {
      assert GoodParent(s.rows, c);
    }
  }

  /** Detaching a branch takes exactly its own subtree out of the subtree of any conversation above it. */
  lemma {:induction false} DetachRemovesSubtree(rows: map<nat, Row>, branch: nat, root: nat, d: nat)
    requires branch in rows && !Descends(rows, branch, root)
    ensures Descends(Detached(rows, branch), root, d) <==> Descends(rows, root, d) && !Descends(rows, branch, d)
    decreases d
  {
    if d != root && d != branch && d in rows && rows[d].parent.Id? && rows[d].parent.value < d {
      DetachRemovesSubtree(rows, branch, root, rows[d].parent.value);
    }
  }

  /** A branch that is detached before its ancestor is deleted survives with all its own branches, while
      everything else below the ancestor goes. */
  lemma {:induction false} DetachedBranchSurvivesDelete(s: Store, branch: nat, root: nat, account: nat, d: nat)
    requires Forest(s) && Owned(s.rows, branch, account) && Owned(s.rows, root, account)
    requires !Descends(s.rows, branch, root)
    ensures var after := Apply(Apply(s, Detach(branch, account)), Delete(root, account)).rows;
            d in after <==> d in s.rows && (Descends(s.rows, root, d) ==> Descends(s.rows, branch, d))
  {
    var rows' := Detached(s.rows, branch);
    assert Owned(rows', root, account);
    DetachRemovesSubtree(s.rows, branch, root, d);
  }

  // ----- What branching and detaching do -----

  /** `part` are the messages at places 0 to max(0, upTo) of the list, as far as it goes. */
  ghost predicate IsPrefixUpTo(part: seq<Message>, all: seq<Message>, upTo: int) {
    && |part| <= |all| && (forall i :: 0 <= i < |part| ==> part[i] == all[i])
    && |part| == if upTo < 0 then (if all == [] then 0 else 1) else if upTo < |all| then upTo + 1 else |all|
  }

  lemma {:induction false} CopiedMeaning(row: Row, upTo: int)
    ensures IsPrefixUpTo(Copied(row, upTo), row.messages, upTo)
  {
  }

  /** Everything but one conversation is as it was. */
  ghost predicate OnlyChanges(s: Store, s': Store, id: nat) {
    forall c :: c != id ==> (c in s'.rows <==> c in s.rows) && (c in s.rows ==> s'.rows[c] == s.rows[c])
  }

  /** Creating opens an empty top-level chat with the title, for the owner. */
  lemma {:induction false} CreateOpensEmpty(s: Store, owner: MaybeId, title: string)
    requires Forest(s)
    ensures var s' := Apply(s, Create(owner, title));
            && s'.nextId == s.nextId + 1 && s.nextId !in s.rows && s.nextId in s'.rows
            && OnlyChanges(s, s', s.nextId)
            && var row := s'.rows[s.nextId];
            && row.owner == owner && row.parent == Null && row.title == title && row.messages == []
  {
  }

  /** Branching an owned conversation with messages to a new chat opens one for the account, under the source,
      titled after it in at most 120 characters, with a copy of the messages up to the place. */
  lemma {:induction false} BranchOpensCopy(s: Store, source: nat, upTo: int, account: nat)
    requires Forest(s) && Owned(s.rows, source, account) && s.rows[source].messages != []
    ensures var s' := Apply(s, Branch(source, upTo, Null, account));
            && s'.nextId == s.nextId + 1 && s.nextId !in s.rows && s.nextId in s'.rows
            && OnlyChanges(s, s', s.nextId)
            && var row, title := s'.rows[s.nextId], "Branch · " + s.rows[source].title;
            && row.owner == Id(account) && row.parent == Id(source)
            && row.title <= title && |row.title| == (if |title| < 120 then |title| else 120)
            && IsPrefixUpTo(row.messages, s.rows[source].messages, upTo)
  {
    CopiedMeaning(s.rows[source], upTo);
  }

  /** Branching to an owned chat appends the copy to its messages and changes nothing else. */
  lemma {:induction false} BranchAppendsCopy(s: Store, source: nat, upTo: int, target: nat, account: nat)
    requires Owned(s.rows, source, account) && Owned(s.rows, target, account) && s.rows[source].messages != []
    ensures var s' := Apply(s, Branch(source, upTo, Id(target), account));
            && s'.nextId == s.nextId && target in s'.rows && OnlyChanges(s, s', target)
            && var was, now := s.rows[target], s'.rows[target];
            && now.owner == was.owner && now.parent == was.parent && now.title == was.title
            && was.messages <= now.messages
            && IsPrefixUpTo(now.messages[|was.messages|..], s.rows[source].messages, upTo)
  {
    CopiedMeaning(s.rows[source], upTo);
    var part := Copied(s.rows[source], upTo);
    assert (s.rows[target].messages + part)[|s.rows[target].messages|..] == part;
  }

  /** Detaching an owned conversation clears its parent and changes nothing else. */
  lemma {:induction false} DetachClearsParent(s: Store, c: nat, account: nat)
    requires Owned(s.rows, c, account)
    ensures var s' := Apply(s, Detach(c, account));
            && s'.nextId == s.nextId && c in s'.rows && OnlyChanges(s, s', c)
            && var was, now := s.rows[c], s'.rows[c];
            now.parent == Null && now.owner == was.owner && now.title == was.title && now.messages == was.messages
  {
  }
}
