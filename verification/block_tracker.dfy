/**
  The ReactiveBlockTracker subprovider: the first member of the provider
  chain, which, for the methods named in its policy table, refreshes the
  engine's current block before the rest of the chain runs ("before") or
  after it has produced its result (any other configured value).

  The engine's callbacks are not modelled as code: one request's handling
  is a trace of `Effect`s (fetching the latest block, committing it as the
  current block, `next()`, `next(unwind)`, `end(err)`, and the unwind
  callback's `cb()`), together with the current block after the step.
 */
module BlockTracker {
  import opened JsValues

  /** A block as the engine hands it back; the tracker never looks inside. */
  datatype Block = Block(number: nat, hash: string)

  /** The outcome of the engine's asynchronous fetch of the latest block. */
  datatype FetchResult = Fetched(block: Block) | FetchFailed(err: Error)

  /** What `this.methods[name]` evaluates to: `undefined`, one of the
      table's own string values, or a member every plain object inherits
      from `Object.prototype` (never `null`). */
  datatype Lookup = Missing | Own(value: string) | Inherited(name: string)

  /** The tracker's three behaviours for a request. */
  datatype Policy = NoSync | SyncBefore | SyncAfter

  /** One observable action of the tracker on a request. */
  datatype Effect =
    | FetchLatest                    // the engine's fetch of the "latest" block
    | SetCurrentBlock(block: Block)  // the commit to the shared current block
    | Next                           // next(): continue down the chain
    | NextWithUnwind                 // next(fn): continue, run fn on the way back
    | End(err: Error)                // end(err): finish the request with err
    | Resume                         // cb(): the unwind callback hands back up

  /** The shared current block after a step, and the effects in order. */
  datatype Step = Step(head: Block, effects: seq<Effect>)

  /** One request sent through the chain, with the fetch outcome the engine
      would report for it. */
  datatype Request = Request(name: string, fetch: FetchResult)

  /** The table built by the constructor. */
  const DefaultMethods: map<string, string> :=
    map["eth_call" := "before", "eth_getStorageAt" := "before"]

  /** The property names every plain JavaScript object inherits from
      `Object.prototype`. */
  const ObjectPrototypeKeys: set<string> :=
    {"constructor", "hasOwnProperty", "isPrototypeOf", "propertyIsEnumerable",
     "toLocaleString", "toString", "valueOf", "__proto__", "__defineGetter__",
     "__defineSetter__", "__lookupGetter__", "__lookupSetter__"}

  // ---------------------------------------------------------------------
  // The policy table
  // ---------------------------------------------------------------------

  /** `table[key]` on a JavaScript object literal: own keys first, then the
      inherited prototype members. */
  function LookupAsWritten(table: map<string, string>, key: string): (r: Lookup)
    ensures r.Missing? <==> key !in table && key !in ObjectPrototypeKeys
    ensures r.Own? <==> key in table
    ensures r.Own? ==> r.value == table[key]
  {
    if key in table then Own(table[key])
    else if key in ObjectPrototypeKeys then Inherited(key)
    else Missing
  }

  /** The branch taken on the looked-up value `when`: `when == null` goes
      straight on, `when == "before"` syncs before, anything else after. */
  function PolicyOfLookup(when: Lookup): Policy
  {
    match when
    case Missing => NoSync
    case Own(v) => if v == "before" then SyncBefore else SyncAfter
    case Inherited(_) => SyncAfter
  }

  /** The policy exactly as the source computes it from the table. */
  function PolicyAsWritten(table: map<string, string>, name: string): (p: Policy)
    ensures p == NoSync <==> name !in table && name !in ObjectPrototypeKeys
    ensures p == SyncBefore <==> name in table && table[name] == "before"
  {
    PolicyOfLookup(LookupAsWritten(table, name))
  }

  /** The policy with the table read as a map of its own entries only: a
      method without an entry gets no sync, whatever its name. */
  function PolicyFor(table: map<string, string>, name: string): (p: Policy)
    ensures p == NoSync <==> name !in table
    ensures p == SyncBefore <==> name in table && table[name] == "before"
    ensures p == SyncAfter <==> name in table && table[name] != "before"
  {
    PolicyOfLookup(if name in table then Own(table[name]) else Missing)
  }

  /** With the constructor's table, exactly `eth_call` and
      `eth_getStorageAt` sync before, and nothing syncs after. */
  function DefaultPolicy(name: string): (p: Policy)
    ensures p == SyncBefore <==> name == "eth_call" || name == "eth_getStorageAt"
    ensures p == NoSync <==> name != "eth_call" && name != "eth_getStorageAt"
    ensures p != SyncAfter
  {
    PolicyFor(DefaultMethods, name)
  }

  /** With the constructor's table as the source looks it up, every
      inherited prototype name takes the "after" branch. */
  function DefaultPolicyAsWritten(name: string): (p: Policy)
    ensures p == SyncBefore <==> name == "eth_call" || name == "eth_getStorageAt"
    ensures p == SyncAfter <==> name in ObjectPrototypeKeys
  {
    PolicyAsWritten(DefaultMethods, name)
  }

  /** The two lookups agree on every name that is not inherited. */
  lemma PolicyAgreesOffPrototype(table: map<string, string>, name: string)
    requires name !in ObjectPrototypeKeys
    ensures PolicyAsWritten(table, name) == PolicyFor(table, name)
  {
  }

  /** A request for `toString`, which has no entry, is synchronised after
      the chain as written, and not at all with own-entry lookup. */
  lemma ToStringSyncsAfter()
    ensures "toString" !in DefaultMethods
    ensures DefaultPolicyAsWritten("toString") == SyncAfter
    ensures DefaultPolicy("toString") == NoSync
  {
  }

  // ---------------------------------------------------------------------
  // Effects and the shared current block
  // ---------------------------------------------------------------------

  /** An effect that hands control to someone else: the chain, the engine
      or the unwinding caller. */
  predicate IsControl(e: Effect)
  {
    e.Next? || e.NextWithUnwind? || e.End? || e.Resume?
  }

  /** A trace hands control on exactly once, as its last effect, so that
      every commit and fetch happens before control leaves the tracker. */
  predicate HandsOnOnce(effects: seq<Effect>)
  {
    && |effects| > 0
    && IsControl(effects[|effects| - 1])
    && forall i :: 0 <= i < |effects| - 1 ==> !IsControl(effects[i])
  }

  /** True when some effect of the trace commits a block. */
  predicate Commits(effects: seq<Effect>)
  {
    exists i :: 0 <= i < |effects| && effects[i].SetCurrentBlock?
  }

  /** Position `i` of the trace commits a block, and no later effect does. */
  predicate IsLastCommit(effects: seq<Effect>, i: int)
  {
    && 0 <= i < |effects|
    && effects[i].SetCurrentBlock?
    && forall j :: i < j < |effects| ==> !effects[j].SetCurrentBlock?
  }

  /** The current block after applying a trace's commits to `head`: the
      last block committed, or `head` when nothing was committed. */
  function Replay(head: Block, effects: seq<Effect>): (b: Block)
    ensures !Commits(effects) ==> b == head
    ensures Commits(effects) ==> exists i :: IsLastCommit(effects, i) && effects[i].block == b
    decreases |effects|
  {
    if |effects| == 0 then head
    else
      var h := if effects[0].SetCurrentBlock? then effects[0].block else head;
      var b := Replay(h, effects[1..]);
      assert Commits(effects[1..]) ==> Commits(effects);
      assert !Commits(effects[1..]) && effects[0].SetCurrentBlock? ==>
               IsLastCommit(effects, 0) && effects[0].block == b;
      assert forall i :: IsLastCommit(effects[1..], i) ==> IsLastCommit(effects, i + 1);
      b
  }

  /** Replaying two traces one after the other is replaying their
      concatenation. */
  lemma {:induction false} ReplayAppend(head: Block, a: seq<Effect>, b: seq<Effect>)
    ensures Replay(head, a + b) == Replay(Replay(head, a), b)
    decreases |a|
  {
    if |a| > 0 {
      var h := if a[0].SetCurrentBlock? then a[0].block else head;
      assert (a + b)[0] == a[0];
      assert (a + b)[1..] == a[1..] + b;
      ReplayAppend(h, a[1..], b);
    } else {
      assert a + b == b;
    }
  }

  // ---------------------------------------------------------------------
  // One request
  // ---------------------------------------------------------------------

  /** The inner `fetchBlock(cb)`: fetch the latest block; on error end the
      request with it and never call `cb`; otherwise commit the block and
      call `cb` right after the commit. */
  function FetchBlock(head: Block, fetch: FetchResult, cb: Effect): (r: Step)
    requires IsControl(cb)  // `cb` is a continuation, never a commit
    ensures HandsOnOnce(r.effects)
    ensures |r.effects| >= 2 && r.effects[0] == FetchLatest
    ensures r.head == Replay(head, r.effects)
    ensures fetch.FetchFailed? ==>
              && r.effects == [FetchLatest, End(fetch.err)]
              && !Commits(r.effects)
              && r.head == head
    ensures fetch.Fetched? ==>
              && r.head == fetch.block
              && r.effects[|r.effects| - 1] == cb
              && r.effects[|r.effects| - 2] == SetCurrentBlock(fetch.block)
  {
    match fetch
    case FetchFailed(err) => Step(head, [FetchLatest, End(err)])
    case Fetched(block) => Step(block, [FetchLatest, SetCurrentBlock(block), cb])
  }

  /** The forward pass of `handleRequest` for a request whose policy is
      `policy`, starting from current block `head`. `fetch` is consulted
      only when the policy fetches before the chain continues. */
  function Forward(policy: Policy, head: Block, fetch: FetchResult): (r: Step)
    ensures HandsOnOnce(r.effects)
    ensures r.head == Replay(head, r.effects)
    // the chain downstream sees the block current when control is handed on
    ensures r.head == Replay(head, r.effects[..|r.effects| - 1])
    ensures policy == NoSync ==> r.effects == [Next] && r.head == head
    ensures policy == SyncAfter ==> r.effects == [NextWithUnwind] && r.head == head
    ensures FetchLatest in r.effects <==> policy == SyncBefore
    ensures policy == SyncBefore && fetch.Fetched? ==>
              && r.head == fetch.block
              && r.effects[|r.effects| - 1] == Next
              && SetCurrentBlock(fetch.block) in r.effects
    ensures policy == SyncBefore && fetch.FetchFailed? ==>
              && r.head == head
              && r.effects[|r.effects| - 1] == End(fetch.err)
              && !Commits(r.effects)
              && Next !in r.effects
  {
    match policy
    case NoSync => Step(head, [Next])
    case SyncBefore => FetchBlock(head, fetch, Next)
    case SyncAfter => Step(head, [NextWithUnwind])
  }

  /** The callback handed to `next` under the "after" policy: whatever the
      chain produced, fetch and commit the latest block, and only then
      call the engine's `cb`. */
  function Unwind(head: Block, fetch: FetchResult): (r: Step)
    ensures HandsOnOnce(r.effects)
    ensures r.effects[0] == FetchLatest
    ensures r.head == Replay(head, r.effects)
    ensures Resume in r.effects <==> fetch.Fetched?
    ensures fetch.Fetched? ==>
              && r.head == fetch.block
              && r.effects[|r.effects| - 1] == Resume
              && r.effects[|r.effects| - 2] == SetCurrentBlock(fetch.block)
    ensures fetch.FetchFailed? ==>
              && r.head == head
              && r.effects[|r.effects| - 1] == End(fetch.err)
              && !Commits(r.effects)
  {
    FetchBlock(head, fetch, Resume)
  }

  /** `handleRequest` with the table looked up by own entries. */
  function HandleRequest(table: map<string, string>, name: string, head: Block,
                         fetch: FetchResult): (r: Step)
    ensures HandsOnOnce(r.effects)
    ensures name !in table ==> r.effects == [Next] && r.head == head
    ensures FetchLatest in r.effects <==> name in table && table[name] == "before"
  {
    Forward(PolicyFor(table, name), head, fetch)
  }

  /** `handleRequest` with the table looked up as the source does. */
  function HandleRequestAsWritten(table: map<string, string>, name: string, head: Block,
                                  fetch: FetchResult): (r: Step)
    ensures HandsOnOnce(r.effects)
    ensures name !in table && name in ObjectPrototypeKeys ==> r.effects == [NextWithUnwind]
    ensures name !in ObjectPrototypeKeys ==> r == HandleRequest(table, name, head, fetch)
  {
    Forward(PolicyAsWritten(table, name), head, fetch)
  }

  // ---------------------------------------------------------------------
  // A sequence of requests sharing the current block
  // ---------------------------------------------------------------------

  /** The policy lookup of the source, for a fixed table. */
  function AsWrittenLookup(table: map<string, string>): string -> Policy
  {
    name => PolicyAsWritten(table, name)
  }

  /** The own-entry policy lookup, for a fixed table. */
  function OwnEntryLookup(table: map<string, string>): string -> Policy
  {
    name => PolicyFor(table, name)
  }

  /** One request's whole life at the tracker, for the policy lookup
      `policyOf`: the forward pass and, under the "after" policy, the
      unwind callback once the chain below has finished. Each request uses
      one fetch, before or after. */
  function ServeOne(policyOf: string -> Policy, head: Block, req: Request): (r: Step)
    ensures FetchLatest in r.effects <==> policyOf(req.name) != NoSync
    ensures policyOf(req.name) == NoSync ==> r.effects == [Next]
    ensures r.head == Replay(head, r.effects)
    ensures r.head == (if policyOf(req.name) != NoSync && req.fetch.Fetched?
                       then req.fetch.block else head)
    // under "after", control passes down the chain before any fetch
    ensures policyOf(req.name) == SyncAfter ==>
              r.effects[0] == NextWithUnwind && r.effects[1] == FetchLatest
  {
    var fwd := Forward(policyOf(req.name), head, req.fetch);
    if policyOf(req.name) == SyncAfter then
      var back := Unwind(fwd.head, req.fetch);
      ReplayAppend(head, fwd.effects, back.effects);
      Step(back.head, fwd.effects + back.effects)
    else
      fwd
  }

  /** As the source looks the table up, a request for an inherited name
      without an entry fetches (after the chain); with own-entry lookup it
      does not. */
  lemma InheritedNameServedAsWritten(table: map<string, string>, head: Block, req: Request)
    requires req.name !in table && req.name in ObjectPrototypeKeys
    ensures FetchLatest in ServeOne(AsWrittenLookup(table), head, req).effects
    ensures ServeOne(OwnEntryLookup(table), head, req).effects == [Next]
  {
  }

  /** Requests handled one after another, each starting from the current
      block the previous one left. */
  function Serve(policyOf: string -> Policy, head: Block, reqs: seq<Request>): (r: Step)
    ensures r.head == Replay(head, r.effects)
    ensures (forall i :: 0 <= i < |reqs| ==> policyOf(reqs[i].name) == NoSync) ==>
              && r.head == head
              && r.effects == seq(|reqs|, i => Next)
    decreases |reqs|
  {
    if |reqs| == 0 then Step(head, [])
    else
      var first := ServeOne(policyOf, head, reqs[0]);
      var rest := Serve(policyOf, first.head, reqs[1..]);
      ReplayAppend(head, first.effects, rest.effects);
      assert (forall i :: 0 <= i < |reqs| ==> policyOf(reqs[i].name) == NoSync) ==>
               (forall i :: 0 <= i < |reqs| - 1 ==> policyOf(reqs[1..][i].name) == NoSync);
      assert [Next] + seq(|reqs| - 1, i => Next) == seq(|reqs|, i => Next);
      Step(rest.head, first.effects + rest.effects)
  }

  /** Reference definition: the block fetched by the last request that
      synchronises with a successful fetch, or `head` if there is none. */
  function LastSynced(policyOf: string -> Policy, head: Block, reqs: seq<Request>): Block
    decreases |reqs|
  {
    if |reqs| == 0 then head
    else
      var last := reqs[|reqs| - 1];
      if policyOf(last.name) != NoSync && last.fetch.Fetched? then last.fetch.block
      else LastSynced(policyOf, head, reqs[..|reqs| - 1])
  }

  /** `LastSynced` over `[r] + rest` starts from what `r` alone leaves. */
  lemma {:induction false} LastSyncedCons(policyOf: string -> Policy, head: Block,
                                          r: Request, rest: seq<Request>)
    ensures LastSynced(policyOf, head, [r] + rest)
         == LastSynced(policyOf, LastSynced(policyOf, head, [r]), rest)
    decreases |rest|
  {
    if |rest| == 0 {
      assert [r] + rest == [r];
    } else {
      var all := [r] + rest;
      assert all[|all| - 1] == rest[|rest| - 1];
      assert all[..|all| - 1] == [r] + rest[..|rest| - 1];
      LastSyncedCons(policyOf, head, r, rest[..|rest| - 1]);
    }
  }

  /** For any policy lookup, the source's and the own-entry one alike, the
      shared current block after a sequence of requests is the block of the
      last synchronising request whose fetch succeeded: failed fetches and
      unsynchronised methods never move it. */
  lemma {:induction false} ServeKeepsHead(policyOf: string -> Policy, head: Block,
                                          reqs: seq<Request>)
    ensures Serve(policyOf, head, reqs).head == LastSynced(policyOf, head, reqs)
    decreases |reqs|
  {
    if |reqs| > 0 {
      var first := ServeOne(policyOf, head, reqs[0]);
      ServeKeepsHead(policyOf, first.head, reqs[1..]);
      assert [reqs[0]][..0] == [];
      assert LastSynced(policyOf, head, [reqs[0]]) == first.head;
      LastSyncedCons(policyOf, head, reqs[0], reqs[1..]);
      assert [reqs[0]] + reqs[1..] == reqs;
    }
  }
}
