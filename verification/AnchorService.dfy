/** The classes that carry out the anchoring protocol, proved against the state machine of `AnchorProtocol`. */
module AnchorService {
  import opened Hashing
  import opened Ledger
  import opened EvmMerkle
  import opened AnchorProtocol
  import opened AnchorEvidence
  import B = Breaker
  import CanonicalJson
  import MerkleTree
  import ShaMerkle

  /** The in-memory chain. */
  class MockBlockchainClient {
    const h: Hashes
    const f: Format
    var anchors: map<string, string>
    var block: int

    constructor (h: Hashes, f: Format)
      ensures this.h == h && this.f == f && anchors == map[] && block == 1_000_000
    {
      this.h, this.f := h, f;
      anchors := map[];
      block := 1_000_000;
    }

    method CommitBatch(batchId: string, district: string, rootHex: string, now: real) returns (receipt: Receipt)
      modifies this
      ensures anchors == old(anchors)[batchId := rootHex] && block == old(block) + 1
      ensures receipt == Receipt("0x" + h.sha256(batchId + "|" + district + "|" + rootHex), Some(block), Some(now), "CONFIRMED")
    {
      var txHash := "0x" + h.sha256(batchId + "|" + district + "|" + rootHex);
      block := block + 1;
      anchors := anchors[batchId := rootHex];
      return Receipt(txHash, Some(block), Some(now), "CONFIRMED");
    }

    method VerifyProof(batchId: string, leaf: string, siblings: seq<string>) returns (r: Option<bool>)
      ensures r == ChainAccepts(f, anchors, batchId, leaf, siblings)
    {
      if batchId !in anchors {
        return Some(false);
      }
      r := VerifyMerkleProofEvm(f, leaf, siblings, anchors[batchId]);
    }
  }

  lemma {:induction false} RunSnoc(sys: Settings, actions: seq<Action>, a: Action)
    requires Enabled(Run(sys, START, actions), a)
    ensures Run(sys, START, actions + [a]) == Step(sys, Run(sys, START, actions), a)
  {
    hide Enabled, Step;
    assert (actions + [a])[..|actions|] == actions;
  }

  /** The anchoring of one district over the shared ledger, chain and breaker; `actions` is its history. */
  class AnchorService {
    const sys: Settings
    const tenant: string
    const ledger: AuditLedger
    const client: MockBlockchainClient
    const breaker: B.CircuitBreaker
    var anchors: map<string, Anchor>
    var inFlight: map<string, Flush>
    ghost var actions: seq<Action>

    ghost predicate Wired()
      reads ledger
    {
      ledger.c == sys.c && client.f == sys.f && ledger.Valid()
    }

    /** The district is in the state that its history leads to. */
    ghost predicate Valid()
      reads this, ledger, client
    {
      Wired() && Now() == Run(sys, START, actions)
    }

    ghost function Now(): State
      reads this, ledger, client
    {
      State(RowsOf(ledger.table, tenant), anchors, client.anchors, inFlight)
    }

    /** The other districts' rows. */
    twostate predicate OthersUnchanged()
      reads ledger
    {
      forall t :: t != tenant ==> RowsOf(ledger.table, t) == RowsOf(old(ledger.table), t)
    }

    constructor (sys: Settings, tenant: string, ledger: AuditLedger, client: MockBlockchainClient, breaker: B.CircuitBreaker)
      requires ledger.c == sys.c && client.f == sys.f && ledger.Valid()
      requires RowsOf(ledger.table, tenant) == [] && client.anchors == map[]
      ensures Valid() && actions == []
      ensures this.sys == sys && this.tenant == tenant && this.ledger == ledger && this.client == client && this.breaker == breaker
    {
      this.sys, this.tenant, this.ledger, this.client, this.breaker := sys, tenant, ledger, client, breaker;
      anchors, inFlight, actions := map[], map[], [];
    }

    /** `_last_anchor_ts`: the latest `anchored_at`, 0.0 when there is no row. */
    method LastAnchorTs() returns (ts: real)
      ensures anchors == map[] ==> ts == 0.0
      ensures anchors != map[] ==> exists b | b in anchors :: anchors[b].anchoredAt == ts
      ensures forall b :: b in anchors ==> anchors[b].anchoredAt <= ts
    {
      ts := 0.0;
      var rest := anchors.Keys;
      while rest != {}
        invariant rest <= anchors.Keys
        invariant rest == anchors.Keys ==> ts == 0.0
        invariant rest != anchors.Keys ==> exists b | b in anchors :: anchors[b].anchoredAt == ts
        invariant rest != anchors.Keys ==> forall b :: b in anchors && b !in rest ==> anchors[b].anchoredAt <= ts
        decreases |rest|
      {
        var b :| b in rest;
        if rest == anchors.Keys || anchors[b].anchoredAt > ts {
          ts := anchors[b].anchoredAt;
        }
        rest := rest - {b};
      }
      assert anchors != map[] ==> anchors.Keys != {};
    }

    /** `UPDATE anchors ... WHERE batch_id = ?`. */
    method UpdateAnchorStatus(batchId: string, update: Update)
      modifies this`anchors
      ensures anchors == UpdateRow(old(anchors), batchId, update)
    {
      if batchId in anchors {
        anchors := anchors[batchId := Updated(anchors[batchId], update)];
      }
    }

    method RecordEvent(eventType: string, payload: CanonicalJson.Json, userId: string)
      requires Valid()
      modifies this`actions, ledger
      ensures Valid() && OthersUnchanged() && actions == old(actions) + [Action.RecordEvent(eventType, payload, userId)]
      ensures Now() == Step(sys, old(Now()), Action.RecordEvent(eventType, payload, userId))
    {
      hide Run;
      RunSnoc(sys, actions, Action.RecordEvent(eventType, payload, userId));
      actions := actions + [Action.RecordEvent(eventType, payload, userId)];
      var row := ledger.Append(eventType, payload, tenant, userId);
    }

    /**
     The first half of `flush_district`, up to the `await`; also returns both
     roots. `now` is the wall clock, `ticks` the breaker's monotonic clock.
     */
    method BeginFlush(batchId: string, force: bool, now: real, ticks: real)
      returns (reply: Reply, sha256Root: string, onchainRoot: string)
      requires Valid() && batchId !in anchors && batchId !in client.anchors
      modifies this, breaker
      ensures Valid()
      ensures actions == old(actions) + [Action.BeginFlush(batchId, force, B.Refuses(old(breaker.Now()), ticks), now)]
      ensures (Now(), reply) == Begin(sys, old(Now()), batchId, force, B.Refuses(old(breaker.Now()), ticks), now)
      ensures breaker.Now() == if reply.Empty? || reply.Deferred? then old(breaker.Now()) else B.Look(old(breaker.Now()), ticks)
      ensures reply.Awaiting? ==>
                && batchId in inFlight && onchainRoot == inFlight[batchId].onchainRoot
                && sha256Root == MerkleTree.Root(ShaMerkle.PairHash(sys.c.h), inFlight[batchId].leaves)
    {
      hide Run, Begin, B.Look, RootEvm, Wired;
      ghost var action := Action.BeginFlush(batchId, force, B.Refuses(breaker.Now(), ticks), now);
      RunSnoc(sys, actions, action);
      reply, sha256Root, onchainRoot := ListAndSuspend(batchId, force, now, ticks);
      actions := actions + [action];
    }

    method ListAndSuspend(batchId: string, force: bool, now: real, ticks: real)
      returns (reply: Reply, sha256Root: string, onchainRoot: string)
      requires Wired()
      modifies this`anchors, this`inFlight, breaker
      ensures (Now(), reply) == Begin(sys, old(Now()), batchId, force, B.Refuses(old(breaker.Now()), ticks), now)
      ensures breaker.Now() == if reply.Empty? || reply.Deferred? then old(breaker.Now()) else B.Look(old(breaker.Now()), ticks)
      ensures reply.Awaiting? ==>
                && batchId in inFlight && onchainRoot == inFlight[batchId].onchainRoot
                && sha256Root == MerkleTree.Root(ShaMerkle.PairHash(sys.c.h), inFlight[batchId].leaves)
    {
      hide Unanchored, Take, AreFirstUnanchored, RootEvm, Ordered, B.Look;
      sha256Root, onchainRoot := "", "";
      var events, positions := ledger.SelectUnanchored(tenant, 4 * sys.batchSize);
      if events == [] {
        return Empty, "", "";
      }
      var lastTs := LastAnchorTs();
      if !force && |events| < sys.batchSize && now - lastTs < sys.interval {
        return Deferred(|events|), "", "";
      }
      var firstSeq, lastSeq := events[0].seqNo, events[|events| - 1].seqNo;
      var leaves := PayloadHashes(events);
      sha256Root := ShaMerkle.ComputeMerkleRoot(sys.c.h, leaves);
      onchainRoot := ComputeMerkleRootEvm(sys.f, leaves);
      anchors := anchors[batchId := Anchor(onchainRoot, firstSeq, lastSeq, |leaves|, "PENDING", now, None)];
      var refused := breaker.Preflight(ticks);
      if refused {
        return BreakerOpen, sha256Root, onchainRoot;
      }
      inFlight := inFlight[batchId := Flush(firstSeq, lastSeq, leaves, onchainRoot)];
      return Awaiting, sha256Root, onchainRoot;
    }

    method CommitBatch(batchId: string, now: real) returns (receipt: Receipt)
      requires Valid() && batchId in inFlight
      modifies this`actions, client
      ensures Valid() && actions == old(actions) + [Action.CommitBatch(batchId)]
      ensures Now() == Step(sys, old(Now()), Action.CommitBatch(batchId))
    {
      hide Run;
      RunSnoc(sys, actions, Action.CommitBatch(batchId));
      actions := actions + [Action.CommitBatch(batchId)];
      receipt := client.CommitBatch(batchId, tenant, inFlight[batchId].onchainRoot, now);
    }

    /** The second half of `flush_district` when the `await` returned. */
    method FinishCommitted(batchId: string, receipt: Receipt, event: Option<CanonicalJson.Json>)
      requires Valid() && batchId in inFlight && batchId in client.anchors
      modifies this, ledger, breaker
      ensures Valid() && OthersUnchanged() && actions == old(actions) + [Action.FinishCommitted(batchId, receipt, event)]
      ensures Now() == Step(sys, old(Now()), Action.FinishCommitted(batchId, receipt, event))
      ensures breaker.Now() == B.Succeed(breaker.cfg, old(breaker.Now()))
    {
      hide Run, Mark, MarkCount, NewRow, Ordered, RootEvm;
      RunSnoc(sys, actions, Action.FinishCommitted(batchId, receipt, event));
      actions := actions + [Action.FinishCommitted(batchId, receipt, event)];
      breaker.RecordSuccess();
      var flush := inFlight[batchId];
      UpdateAnchorStatus(batchId, Confirm(receipt));
      var count := ledger.MarkAnchored(tenant, flush.first, flush.last, batchId);
      if event.Some? {
        var row := ledger.Append("ANCHOR_COMMITTED", event.value, tenant, "system:anchor_service");
      }
      inFlight := inFlight - {batchId};
    }

    /** The second half when the `await` raised. */
    method FinishFailed(batchId: string, ticks: real)
      requires Valid() && batchId in inFlight
      modifies this, breaker
      ensures Valid() && actions == old(actions) + [Action.FinishFailed(batchId)]
      ensures Now() == Step(sys, old(Now()), Action.FinishFailed(batchId))
      ensures breaker.Now() == B.Fail(breaker.cfg, old(breaker.Now()), ticks)
    {
      hide Run;
      RunSnoc(sys, actions, Action.FinishFailed(batchId));
      actions := actions + [Action.FinishFailed(batchId)];
      breaker.RecordFailure(ticks);
      UpdateAnchorStatus(batchId, Fail);
      inFlight := inFlight - {batchId};
    }

    method BuildProofForEvent(leafSeq: int) returns (r: Built)
      ensures r == ProofFor(sys.f, Now(), leafSeq)
    {
      var rows := RowsOf(ledger.table, tenant);
      var i := IndexOf(rows, leafSeq);
      if i == |rows| || rows[i].anchoredIn.None? || rows[i].anchoredIn.value !in anchors {
        return Absent;
      }
      var a := anchors[rows[i].anchoredIn.value];
      var found := Between(rows, a.first, a.last);
      var leaves := PayloadHashes(found);
      var target := IndexOf(found, leafSeq);
      if target == |found| {
        return Crashed;
      }
      var proof := MerkleProofEvm(sys.f, leaves, target);
      return Built(MerkleProof(rows[i].anchoredIn.value, proof.value.leaf, proof.value.siblings, a.rootHash));
    }
  }

  /** Whatever the service has been through, the proofs it builds are accepted by its chain. */
  lemma {:induction false} ServiceProofsAreAccepted(service: AnchorService, leafSeq: int)
    requires service.Valid() && Lawful(service.sys.f)
    ensures
      var s := service.Now();
      var built := ProofFor(service.sys.f, s, leafSeq);
      && !built.Crashed?
      && (built.Built? <==> 1 <= leafSeq <= |s.rows| && s.rows[leafSeq - 1].anchoredIn.Some?)
      && (built.Built? ==>
            ChainAccepts(service.sys.f, s.chain, built.proof.batchId, built.proof.leaf, built.proof.siblings) == Some(true))
  {
    hide Run, Lawful, ProofFor, ChainAccepts;
    ProofIsAccepted(service.sys, service.actions, leafSeq);
  }
}
