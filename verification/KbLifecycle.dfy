/**
 * The knowledge-base records behind the `kb_*` tools: writing and rewriting facts, superseding them,
 * promoting them under review rules, ageing deprecated ones, and searching what is currently valid.
 */
module KbLifecycle {
  import opened Prelude
  import opened Text

  /** A time stamp. ISO-8601 UTC texts are only compared, and any countable order embeds in the reals. */
  type Stamp = real

  datatype Status = Draft | Reviewed | Promoted | Deprecated | Superseded

  datatype Layer = Working | Episodic | Semantic | Procedural

  /** What a write sets. Optional texts are already stripped and never blank. */
  datatype Fact = Fact(scope: string, namespace: string, title: string, summary: string, body: string,
                       tags: seq<string>, links: seq<string>, provenance: string, author: string, layer: Layer,
                       validFrom: Option<Stamp>, supersedes: Option<string>, source: Option<string>,
                       episode: Option<string>)

  datatype Audit = Audit(ts: Stamp, from: Status, to: Status, reviewer: Option<string>, note: Option<string>)

  datatype Record = Record(fact: Fact, createdAt: Stamp, updatedAt: Stamp, validTo: Option<Stamp>, status: Status,
                           audit: seq<Audit>)

  type Kb = map<string, Record>

  function StatusName(s: Status): string {
    match s
    case Draft => "draft"
    case Reviewed => "reviewed"
    case Promoted => "promoted"
    case Deprecated => "deprecated"
    case Superseded => "superseded"
  }

  /** draft < reviewed < promoted < deprecated < superseded */
  function Rank(s: Status): nat {
    match s
    case Draft => 0
    case Reviewed => 1
    case Promoted => 2
    case Deprecated => 3
    case Superseded => 4
  }

  // ---------------------------------------------------------------- promotion policy

  datatype Decision = Allow(to: Status) | Deny(rule: string)

  predicate Blank(s: Option<string>) {
    s.None? || Strip(s.value) == ""
  }

  /** The transition guard; `to` is stripped and lower case. */
  function EvaluatePromotion(r: Record, to: string): Decision {
    if to != "reviewed" && to != "promoted" && to != "deprecated" then Deny("invalid_target")
    else if r.status == Superseded then Deny("terminal_superseded")
    else if to == "reviewed" then
      if r.status != Draft then Deny("invalid_transition")
      else if Blank(r.fact.source) then Deny("review_requires_source")
      else if |Strip(r.fact.summary)| < 5 then Deny("review_requires_summary")
      else if Strip(r.fact.body) == "" then Deny("review_requires_body")
      else Allow(Reviewed)
    else if to == "promoted" then
      if r.status != Reviewed then Deny("promoted_requires_reviewed")
      else if r.fact.layer != Semantic && r.fact.layer != Procedural then Deny("promoted_requires_layer")
      else if Blank(r.fact.source) then Deny("promoted_requires_source")
      else Allow(Promoted)
    else Allow(Deprecated)
  }

  /**
   * Allowed are exactly draft to reviewed, reviewed to promoted, and anything unsuperseded to deprecated, each with its
   * gates.
   */
  lemma PromotionAllowedIff(r: Record, to: string)
    ensures EvaluatePromotion(r, to).Allow? <==>
            || (to == "reviewed" && r.status == Draft && !Blank(r.fact.source) && |Strip(r.fact.summary)| >= 5
                && Strip(r.fact.body) != "")
            || (to == "promoted" && r.status == Reviewed && !Blank(r.fact.source)
               && r.fact.layer in {Semantic, Procedural})
            || (to == "deprecated" && r.status != Superseded)
    ensures EvaluatePromotion(r, to).Allow? ==>
              var d := EvaluatePromotion(r, to);
              StatusName(d.to) == to && (r.status == d.to || Rank(r.status) < Rank(d.to))
  {
    assert "reviewed" != "promoted" && "promoted" != "deprecated" && "reviewed" != "deprecated";
  }

  // ---------------------------------------------------------------- one tool call, on values

  datatype Op =
    | WriteFact(id: string, fact: Fact, validTo: Option<Stamp>, claimsDraft: bool)
    | Promote(id: string, to: string, namespace: Option<string>, reviewer: Option<string>, note: Option<string>)
    | ApplyTtl(bound: Stamp)

  datatype Reply =
    | Written | Moved(from: Status, to: Status) | NoOp | Denied(rule: string) | Failed(error: string) | Swept(n: nat)

  datatype Outcome = Outcome(kb: Kb, reply: Reply)

  /** The record named by `supersedes` is closed at once, whatever its status. */
  function Close(kb: Kb, id: Option<string>, now: Stamp): Kb {
    if id.Some? && id.value in kb then
      kb[id.value := kb[id.value].(validTo := Some(now), status := Superseded, updatedAt := now)]
    else kb
  }

  /** A rewrite keeps the creation time and the status, and replaces everything else, the audit trail included. */
  function Upserted(kb: Kb, id: string, fact: Fact, validTo: Option<Stamp>, now: Stamp): Record {
    if id in kb then Record(fact, kb[id].createdAt, now, validTo, kb[id].status, [])
    else Record(fact, now, now, validTo, Draft, [])
  }

  function DueForTtl(kb: Kb): set<string> {
    set id | id in kb && kb[id].status == Deprecated && kb[id].validTo.None?
  }

  function Aged(kb: Kb, due: set<string>, validTo: Stamp, now: Stamp): Kb {
    map id | id in kb :: if id in due then kb[id].(validTo := Some(validTo), updatedAt := now) else kb[id]
  }

  function Step(kb: Kb, op: Op, now: Stamp): Outcome {
    match op
    case WriteFact(id, fact, validTo, claimsDraft) =>
      if !claimsDraft then Outcome(kb, Denied("promotion_via_kb_promote_only"))
      else if id in kb && kb[id].status == Superseded then Outcome(kb, Failed("immutable_superseded"))
      else Outcome(Close(kb, fact.supersedes, now)[id := Upserted(kb, id, fact, validTo, now)], Written)
    case Promote(id, to, namespace, reviewer, note) =>
      if id == "" || to == "" then Outcome(kb, Failed("missing_id_or_to_status"))
      else if id !in kb then Outcome(kb, Failed("not_found"))
      else if namespace.Some? && kb[id].fact.namespace != namespace.value then Outcome(kb, Denied("namespace_mismatch"))
      else if StatusName(kb[id].status) == to then Outcome(kb, NoOp)
      else
        var d, r := EvaluatePromotion(kb[id], to), kb[id];
        if d.Deny? then Outcome(kb, Denied(d.rule))
        else
          var event := Audit(now, r.status, d.to, reviewer, note);
          Outcome(kb[id := r.(status := d.to, updatedAt := now, audit := r.audit + [event])], Moved(r.status, d.to))
    case ApplyTtl(bound) =>
      Outcome(Aged(kb, DueForTtl(kb), bound, now), Swept(|DueForTtl(kb)|))
  }

  /** The temporal clause: no lower bound or one not in the future, no upper bound or one still ahead. */
  predicate Active(r: Record, now: Stamp) {
    && (r.fact.validFrom.Some? ==> r.fact.validFrom.value <= now)
    && (r.validTo.Some? ==> now < r.validTo.value)
  }

  /** What a search may return; `like` stands for the LIKE clause over title, summary and body. */
  function Hits(kb: Kb, like: Record -> bool, scope: Option<string>, namespace: Option<string>, expired: bool,
                now: Stamp): set<string> {
    set id | id in kb && like(kb[id])
             && (scope.GetOr("") == "" || kb[id].fact.scope == scope.value)
             && (namespace.GetOr("") == "" || kb[id].fact.namespace == namespace.value)
             && (expired || Active(kb[id], now))
  }

  // ---------------------------------------------------------------- the tools

  class SqliteKb {
    var records: Kb

    constructor ()
      ensures records == map[]
    {
      records := map[];
    }

    method Write(id: string, fact: Fact, validTo: Option<Stamp>, now: Stamp) returns (ok: bool)
      modifies this
      ensures ok <==> !(id in old(records) && old(records)[id].status == Superseded)
      ensures records ==
              if ok then Close(old(records), fact.supersedes, now)[id := Upserted(old(records), id, fact, validTo, now)]
                         else old(records)
    {
      var status := Draft;
      if id in records {
        if records[id].status == Superseded {
          return false;
        }
        status := records[id].status;
      }
      var created := if id in records then records[id].createdAt else now;
      if fact.supersedes.Some? && fact.supersedes.value in records {
        var sid := fact.supersedes.value;
        records := records[sid := records[sid].(validTo := Some(now), status := Superseded, updatedAt := now)];
      }
      records := records[id := Record(fact, created, now, validTo, status, [])];
      ok := true;
    }

    method UpdateRecordPromotion(id: string, status: Status, now: Stamp) returns (found: bool)
      modifies this
      ensures found <==> id in old(records)
      ensures records ==
              if found then old(records)[id := old(records)[id].(status := status, updatedAt := now)] else old(records)
    {
      found := id in records;
      if found {
        records := records[id := records[id].(status := status, updatedAt := now)];
      }
    }

    method AppendAuditEvent(id: string, event: Audit, now: Stamp)
      modifies this
      ensures records == if id in old(records)
                         then old(records)[id := old(records)[id].(audit := old(records)[id].audit + [event],
                             updatedAt := now)]
                         else old(records)
    {
      if id in records {
        records := records[id := records[id].(audit := records[id].audit + [event], updatedAt := now)];
      }
    }

    method ApplyTtlToDeprecated(validTo: Stamp, now: Stamp) returns (updated: nat)
      modifies this
      ensures records == Aged(old(records), DueForTtl(old(records)), validTo, now)
      ensures updated == |DueForTtl(old(records))|
    {
      ghost var was := records;
      updated := 0;
      var due := DueForTtl(records);
      var left := due;
      while left != {}
        invariant left <= due && due == DueForTtl(was)
        invariant records == Aged(was, due - left, validTo, now)
        invariant updated == |due| - |left|
        decreases |left|
      {
        var id :| id in left;
        assert due - (left - {id}) == (due - left) + {id};
        records := records[id := records[id].(validTo := Some(validTo), updatedAt := now)];
        left := left - {id};
        updated := updated + 1;
      }
      assert due - left == due;
    }

    method KbWriteFact(id: string, fact: Fact, validTo: Option<Stamp>, claimsDraft: bool, now: Stamp)
      returns (reply: Reply)
      modifies this
      ensures Outcome(records, reply) == Step(old(records), WriteFact(id, fact, validTo, claimsDraft), now)
    {
      if !claimsDraft {
        return Denied("promotion_via_kb_promote_only");
      }
      if id in records && records[id].status == Superseded {
        return Failed("immutable_superseded");
      }
      var ok := Write(id, fact, validTo, now);
      reply := if ok then Written else Failed("immutable_superseded");
    }

    method KbPromote(id: string, to: string, namespace: Option<string>, reviewer: Option<string>, note: Option<string>,
                     now: Stamp)
      returns (reply: Reply)
      modifies this
      ensures Outcome(records, reply) == Step(old(records), Op.Promote(id, to, namespace, reviewer, note), now)
    {
      if id == "" || to == "" {
        return Failed("missing_id_or_to_status");
      }
      if id !in records {
        return Failed("not_found");
      }
      var rec := records[id];
      if namespace.Some? && rec.fact.namespace != namespace.value {
        return Denied("namespace_mismatch");
      }
      if StatusName(rec.status) == to {
        return NoOp;
      }
      var d := EvaluatePromotion(rec, to);
      if d.Deny? {
        return Denied(d.rule);
      }
      var found := UpdateRecordPromotion(id, d.to, now);
      if !found {
        return Failed("update_failed");
      }
      AppendAuditEvent(id, Audit(now, rec.status, d.to, reviewer, note), now);
      reply := Moved(rec.status, d.to);
    }

    method Newest(ids: set<string>) returns (id: string)
      requires ids != {} && ids <= records.Keys
      ensures id in ids && forall x :: x in ids ==> records[x].updatedAt <= records[id].updatedAt
    {
      NewestExists(records, ids);
      id :| id in ids && forall x :: x in ids ==> records[x].updatedAt <= records[id].updatedAt;
    }

    /** Nothing for a blank query; else the newest `topK` (clamped to 1..50) of the hits, newest first. */
    method Search(query: string, like: (string, Record) -> bool, scope: Option<string>, namespace: Option<string>,
                  topK: int, expired: bool, now: Stamp)
      returns (out: seq<string>)
      ensures Strip(query) == "" ==> out == []
      ensures forall i :: 0 <= i < |out| ==>
                out[i] in records && Wanted(records[out[i]], like, Strip(query), scope, namespace, expired, now)
      ensures forall i, j :: 0 <= i < j < |out| ==>
                out[i] != out[j] && records[out[i]].updatedAt >= records[out[j]].updatedAt
      ensures |out| <= (if topK < 1 then 1 else if topK > 50 then 50 else topK)
      ensures Strip(query) != "" ==>
                forall id :: id in records && Wanted(records[id], like, Strip(query), scope, namespace, expired, now)
                             && id !in out ==>
                  && |out| == (if topK < 1 then 1 else if topK > 50 then 50 else topK)
                  && forall i :: 0 <= i < |out| ==> records[id].updatedAt <= records[out[i]].updatedAt
    {
      var q := Strip(query);
      if q == "" {
        return [];
      }
      var hits := Hits(records, Matching(like, q), scope, namespace, expired, now);
      HitsAreWanted(records, like, q, scope, namespace, expired, now);
      out := Page(hits, Max(1, Min(topK, 50)));
    }

    /** `ORDER BY updated_at DESC LIMIT k` */
    method Page(hits: set<string>, k: nat) returns (out: seq<string>)
      requires hits <= records.Keys
      ensures forall i :: 0 <= i < |out| ==> out[i] in hits
      ensures forall i, j :: 0 <= i < j < |out| ==>
                out[i] != out[j] && records[out[i]].updatedAt >= records[out[j]].updatedAt
      ensures |out| <= k
      ensures forall id :: id in hits && id !in out ==>
                |out| == k && forall i :: 0 <= i < |out| ==> records[id].updatedAt <= records[out[i]].updatedAt
    {
      var left := hits;
      out := [];
      while |out| < k && left != {}
        invariant left <= hits && |out| <= k
        invariant forall i :: 0 <= i < |out| ==> out[i] in hits
        invariant forall id :: id in hits <==> id in left || id in out
        invariant forall id :: id in out ==> id !in left
        invariant forall i, j :: 0 <= i < j < |out| ==>
                    out[i] != out[j] && records[out[i]].updatedAt >= records[out[j]].updatedAt
        invariant forall id, i :: id in left && 0 <= i < |out| ==> records[id].updatedAt <= records[out[i]].updatedAt
        decreases |left|
      {
        var id := Newest(left);
        out := out + [id];
        left := left - {id};
      }
    }
  }

  function Matching(like: (string, Record) -> bool, q: string): Record -> bool {
    (r: Record) => like(q, r)
  }

  /**
   * The record matches the query, has the scope and the namespace asked for, where an empty one asks for none, and,
   * unless expired ones are wanted too, has begun and not ended.
   */
  predicate Wanted(r: Record, like: (string, Record) -> bool, q: string, scope: Option<string>,
                   namespace: Option<string>, expired: bool, now: Stamp)
  {
    && like(q, r)
    && (scope.Some? && scope.value != "" ==> r.fact.scope == scope.value)
    && (namespace.Some? && namespace.value != "" ==> r.fact.namespace == namespace.value)
    && (expired || r.fact.validFrom.None? || r.fact.validFrom.value <= now)
    && (expired || r.validTo.None? || r.validTo.value > now)
  }

  lemma HitsAreWanted(kb: Kb, like: (string, Record) -> bool, q: string, scope: Option<string>,
                      namespace: Option<string>, expired: bool, now: Stamp)
    ensures forall id :: id in Hits(kb, Matching(like, q), scope, namespace, expired, now) <==>
              id in kb && Wanted(kb[id], like, q, scope, namespace, expired, now)
  {
  }

  lemma {:induction false} NewestExists(kb: Kb, ids: set<string>)
    requires ids != {} && ids <= kb.Keys
    ensures exists id :: id in ids && forall x :: x in ids ==> kb[x].updatedAt <= kb[id].updatedAt
    decreases |ids|
  {
    var y :| y in ids;
    if ids != {y} {
      NewestExists(kb, ids - {y});
      var m :| m in ids - {y} && forall x :: x in ids - {y} ==> kb[x].updatedAt <= kb[m].updatedAt;
      var best := if kb[y].updatedAt <= kb[m].updatedAt then m else y;
      assert best in ids && forall x :: x in ids ==> x == y || x in ids - {y};
    }
  }

  // ---------------------------------------------------------------- histories

  /** A tool call and the clock when it was made. */
  datatype Tick = Tick(op: Op, now: Stamp)

  predicate Clocked(h: seq<Tick>) {
    forall i, j :: 0 <= i < j < |h| ==> h[i].now <= h[j].now
  }

  function Run(h: seq<Tick>): Kb {
    if h == [] then map[] else Step(Run(h[..|h| - 1]), h[|h| - 1].op, h[|h| - 1].now).kb
  }

  lemma RunSnoc(h: seq<Tick>, i: nat)
    requires i < |h|
    ensures Run(h[..i + 1]) == Step(Run(h[..i]), h[i].op, h[i].now).kb
  {
    assert h[..i + 1][..i] == h[..i];
  }

  /**
   * One call never removes a record or lowers its status, and only `kb_promote` enters promoted, from reviewed, gates
   * open.
   */
  lemma StepRaises(kb: Kb, op: Op, now: Stamp, id: string)
    requires id in kb
    ensures var after := Step(kb, op, now).kb;
            && id in after && Rank(kb[id].status) <= Rank(after[id].status)
            && (kb[id].status == Superseded ==> after[id].status == Superseded && after[id].fact == kb[id].fact
                                                && after[id].createdAt == kb[id].createdAt
                                                && (after[id].validTo == kb[id].validTo
                                                   || after[id].validTo == Some(now)))
            && (after[id].status == Superseded && kb[id].status != Superseded ==> after[id].validTo == Some(now))
  {
    if op.Promote? && id == op.id {
      PromotionAllowedIff(kb[id], op.to);
    }
  }

  lemma StepEntersPromoted(kb: Kb, op: Op, now: Stamp, id: string)
    requires id in Step(kb, op, now).kb && Step(kb, op, now).kb[id].status == Promoted
    requires id !in kb || kb[id].status != Promoted
    ensures op.Promote? && op.id == id && op.to == "promoted"
    ensures id in kb && kb[id].status == Reviewed && !Blank(kb[id].fact.source)
            && kb[id].fact.layer in {Semantic, Procedural}
  {
    if op.Promote? && id == op.id && id in kb {
      PromotionAllowedIff(kb[id], op.to);
    }
  }

  lemma StepEntersReviewed(kb: Kb, op: Op, now: Stamp, id: string)
    requires id in Step(kb, op, now).kb && Step(kb, op, now).kb[id].status == Reviewed
    requires id !in kb || kb[id].status != Reviewed
    ensures op.Promote? && op.id == id && op.to == "reviewed" && id in kb && kb[id].status == Draft
    ensures !Blank(kb[id].fact.source) && |Strip(kb[id].fact.summary)| >= 5 && Strip(kb[id].fact.body) != ""
  {
    if op.Promote? && id == op.id && id in kb {
      PromotionAllowedIff(kb[id], op.to);
    }
  }

  /** Over any history a record, once written, stays, and its status only moves up. */
  lemma {:induction false} StatusNeverFalls(h: seq<Tick>, i: nat, j: nat, id: string)
    requires i <= j <= |h| && id in Run(h[..i])
    ensures id in Run(h[..j]) && Rank(Run(h[..i])[id].status) <= Rank(Run(h[..j])[id].status)
    decreases j
  {
    if i < j {
      StatusNeverFalls(h, i, j - 1, id);
      RunSnoc(h, j - 1);
      StepRaises(Run(h[..j - 1]), h[j - 1].op, h[j - 1].now, id);
    }
  }

  /** Whatever is superseded was closed no later than the clock. */
  lemma {:induction false} SupersededIsClosed(h: seq<Tick>, id: string, now: Stamp)
    requires Clocked(h) && (h != [] ==> h[|h| - 1].now <= now)
    requires id in Run(h) && Run(h)[id].status == Superseded
    ensures Run(h)[id].validTo.Some? && Run(h)[id].validTo.value <= now
    decreases |h|
  {
    var front, last := h[..|h| - 1], h[|h| - 1];
    if id in Run(front) {
      StepRaises(Run(front), last.op, last.now, id);
      if Run(front)[id].status == Superseded {
        SupersededIsClosed(front, id, now);
      }
    }
  }

  /**
   * Once superseded, a record's content never changes again, its upper bound never exceeds the clock, and no
   * search over valid records, at any later moment, can return it.
   */
  lemma {:induction false} SupersededIsFinal(h: seq<Tick>, i: nat, id: string, like: Record -> bool,
                                             scope: Option<string>, namespace: Option<string>, now: Stamp)
    requires Clocked(h) && i <= |h| && (h != [] ==> h[|h| - 1].now <= now)
    requires id in Run(h[..i]) && Run(h[..i])[id].status == Superseded
    ensures id in Run(h) && Run(h)[id].status == Superseded && Run(h)[id].fact == Run(h[..i])[id].fact
    ensures Run(h)[id].validTo.Some? && Run(h)[id].validTo.value <= now
    ensures id !in Hits(Run(h), like, scope, namespace, false, now)
  {
    FactFrozen(h, i, |h|, id);
    assert h[..|h|] == h;
    SupersededIsClosed(h, id, now);
  }

  lemma {:induction false} FactFrozen(h: seq<Tick>, i: nat, j: nat, id: string)
    requires i <= j <= |h| && id in Run(h[..i]) && Run(h[..i])[id].status == Superseded
    ensures id in Run(h[..j]) && Run(h[..j])[id].status == Superseded && Run(h[..j])[id].fact == Run(h[..i])[id].fact
    decreases j
  {
    if i < j {
      FactFrozen(h, i, j - 1, id);
      RunSnoc(h, j - 1);
      StepRaises(Run(h[..j - 1]), h[j - 1].op, h[j - 1].now, id);
    }
  }

  /** Call `i` of the history is a `kb_promote` of `id` that moved it to `to`. */
  ghost predicate MovedAt(h: seq<Tick>, i: nat, id: string, to: Status) {
    && i < |h| && h[i].op.Promote? && h[i].op.id == id && h[i].op.to == StatusName(to)
    && id in Run(h[..i]) && Step(Run(h[..i]), h[i].op, h[i].now).reply == Moved(Run(h[..i])[id].status, to)
  }

  ghost predicate StatusAt(h: seq<Tick>, n: nat, id: string, status: Status)
    requires n <= |h|
  {
    id in Run(h[..n]) && Run(h[..n])[id].status == status
  }

  lemma NotAtTheStart(h: seq<Tick>, n: nat, id: string, status: Status)
    requires n <= |h| && StatusAt(h, n, id, status)
    ensures n > 0
  {
  }

  lemma ReviewedNow(h: seq<Tick>, i: nat, id: string)
    requires i < |h| && StatusAt(h, i + 1, id, Reviewed) && !StatusAt(h, i, id, Reviewed)
    ensures MovedAt(h, i, id, Reviewed)
  {
    RunSnoc(h, i);
    StepEntersReviewed(Run(h[..i]), h[i].op, h[i].now, id);
  }

  lemma PromotedNow(h: seq<Tick>, i: nat, id: string)
    requires i < |h| && StatusAt(h, i + 1, id, Promoted) && !StatusAt(h, i, id, Promoted)
    ensures MovedAt(h, i, id, Promoted) && StatusAt(h, i, id, Reviewed)
  {
    RunSnoc(h, i);
    StepEntersPromoted(Run(h[..i]), h[i].op, h[i].now, id);
  }

  /** The call that last reviewed a reviewed record. */
  lemma {:induction false} ReviewedWasReviewed(h: seq<Tick>, n: nat, id: string) returns (i: nat)
    requires n <= |h| && StatusAt(h, n, id, Reviewed)
    ensures i < n && MovedAt(h, i, id, Reviewed)
    decreases n
  {
    NotAtTheStart(h, n, id, Reviewed);
    i := n - 1;
    if StatusAt(h, n - 1, id, Reviewed) {
      i := ReviewedWasReviewed(h, n - 1, id);
    } else {
      ReviewedNow(h, n - 1, id);
    }
  }

  /** No record is promoted that was not first accepted by a review and then by a promotion, in this order. */
  lemma {:induction false} PromotedWasReviewedFirst(h: seq<Tick>, n: nat, id: string) returns (i: nat, j: nat)
    requires n <= |h| && StatusAt(h, n, id, Promoted)
    ensures i < j < n && MovedAt(h, i, id, Reviewed) && MovedAt(h, j, id, Promoted)
    decreases n
  {
    NotAtTheStart(h, n, id, Promoted);
    j := n - 1;
    if StatusAt(h, n - 1, id, Promoted) {
      i, j := PromotedWasReviewedFirst(h, n - 1, id);
    } else {
      PromotedNow(h, n - 1, id);
      i := ReviewedWasReviewed(h, n - 1, id);
    }
  }

  /**
   * The review gates hold when a review is accepted, not afterwards: a rewrite keeps the status, drops the
   * audit trail and installs any body. A reviewed record that is rewritten has a body exactly when the new
   * fact has one.
   */
  lemma ReviewSurvivesRewrite(kb: Kb, id: string, fact: Fact, validTo: Option<Stamp>, now: Stamp)
    requires id in kb && kb[id].status == Reviewed
    ensures var r := Step(kb, WriteFact(id, fact, validTo, true), now).kb[id];
            && r.status == Reviewed && r.audit == []
            && (EvaluatePromotion(r.(status := Draft), "reviewed").Allow? <==>
                !Blank(fact.source) && |Strip(fact.summary)| >= 5 && Strip(fact.body) != "")
  {
    PromotionAllowedIff(Step(kb, WriteFact(id, fact, validTo, true), now).kb[id].(status := Draft), "reviewed");
  }

  /** A history after which a reviewed record would not pass its own review. */
  lemma ReviewedCanLoseItsBody(id: string, good: Fact, now: Stamp)
    requires id != "" && good.supersedes == None
    requires !Blank(good.source) && |Strip(good.summary)| >= 5 && Strip(good.body) != ""
    ensures var h := [] + [Tick(WriteFact(id, good, None, true), now)]
                     + [Tick(Op.Promote(id, "reviewed", None, None, None), now)]
                     + [Tick(WriteFact(id, good.(body := ""), None, true), now)];
            id in Run(h) && Run(h)[id].status == Reviewed && Run(h)[id].fact.body == ""
  {
    var a, b := Tick(WriteFact(id, good, None, true), now), Tick(Op.Promote(id, "reviewed", None, None, None), now);
    var c := Tick(WriteFact(id, good.(body := ""), None, true), now);
    RunMore([], a);
    RunMore([] + [a], b);
    PromotionAllowedIff(Run([] + [a])[id], "reviewed");
    RunMore([] + [a] + [b], c);
  }

  lemma RunMore(h: seq<Tick>, t: Tick)
    ensures Run(h + [t]) == Step(Run(h), t.op, t.now).kb
  {
    assert (h + [t])[..|h + [t]| - 1] == h;
  }

  // ---------------------------------------------------------------- one call, in the records' fields

  /**
   * An accepted write gives the record the fact and validity written, a new time and an empty audit trail, and keeps
   * the creation time and the status of one that existed; a new one is a draft created now. Records other than this
   * one and the superseded one stay.
   */
  lemma WriteFactMeans(kb: Kb, id: string, fact: Fact, validTo: Option<Stamp>, claimsDraft: bool, now: Stamp,
                       other: string)
    ensures var o := Step(kb, WriteFact(id, fact, validTo, claimsDraft), now);
            var accepted := claimsDraft && (id in kb ==> kb[id].status != Superseded);
            && (!accepted ==> o.kb == kb && (!claimsDraft ==> o.reply == Denied("promotion_via_kb_promote_only"))
                              && (claimsDraft ==> o.reply == Failed("immutable_superseded")))
            && (accepted ==>
                  && o.reply == Written && id in o.kb
                  && (var r := o.kb[id];
                      && r.fact == fact && r.validTo == validTo && r.updatedAt == now && r.audit == []
                      && r.status == (if id in kb then kb[id].status else Draft)
                      && r.createdAt == if id in kb then kb[id].createdAt else now)
                  && (other != id ==> (other in o.kb <==> other in kb))
                  && (other != id && other in kb && fact.supersedes != Some(other) ==> o.kb[other] == kb[other])
                  && (other != id && other in kb && fact.supersedes == Some(other) ==>
                        o.kb[other] == kb[other].(validTo := Some(now), status := Superseded, updatedAt := now)))
  {
  }

  /**
   * `kb_promote` refuses in the order id, existence, namespace, then does nothing for the status the record has, then
   * asks the policy; an accepted one changes the status and the time and adds one entry to the audit trail.
   */
  lemma PromoteMeans(kb: Kb, id: string, to: string, namespace: Option<string>, reviewer: Option<string>,
                     note: Option<string>, now: Stamp)
    ensures var o := Step(kb, Op.Promote(id, to, namespace, reviewer, note), now);
            && (id == "" || to == "" ==> o == Outcome(kb, Failed("missing_id_or_to_status")))
            && (id != "" && to != "" && id !in kb ==> o == Outcome(kb, Failed("not_found")))
            && (id != "" && to != "" && id in kb ==>
                  var r := kb[id];
                  if namespace.Some? && r.fact.namespace != namespace.value then
                    o == Outcome(kb, Denied("namespace_mismatch"))
                  else if StatusName(r.status) == to then o == Outcome(kb, NoOp)
                  else if EvaluatePromotion(r, to).Deny? then o == Outcome(kb, Denied(EvaluatePromotion(r, to).rule))
                  else
                    && o.kb.Keys == kb.Keys && (forall k :: k in kb && k != id ==> o.kb[k] == kb[k])
                    && StatusName(o.kb[id].status) == to && o.reply == Moved(r.status, o.kb[id].status)
                    && o.kb[id].fact == r.fact && o.kb[id].validTo == r.validTo && o.kb[id].createdAt == r.createdAt
                    && o.kb[id].updatedAt == now && |o.kb[id].audit| == |r.audit| + 1
                    && o.kb[id].audit[..|r.audit|] == r.audit
                    && (var e := o.kb[id].audit[|r.audit|];
                        && e.ts == now && e.from == r.status && e.to == o.kb[id].status
                        && e.reviewer == reviewer && e.note == note))
  {
    if id in kb {
      PromotionAllowedIff(kb[id], to);
    }
  }

  /** A sweep closes exactly the deprecated records without an upper bound; all else stays. */
  lemma ApplyTtlMeans(kb: Kb, bound: Stamp, now: Stamp, id: string)
    ensures var o := Step(kb, ApplyTtl(bound), now);
            && o.kb.Keys == kb.Keys
            && (id in kb && kb[id].status == Deprecated && kb[id].validTo == None ==>
                  o.kb[id] == kb[id].(validTo := Some(bound), updatedAt := now))
            && (id in kb && !(kb[id].status == Deprecated && kb[id].validTo == None) ==> o.kb[id] == kb[id])
            && o.reply == Swept(|set k | k in kb && kb[k].status == Deprecated && kb[k].validTo == None|)
  {
    assert DueForTtl(kb) == set k | k in kb && kb[k].status == Deprecated && kb[k].validTo == None;
  }

  // ---------------------------------------------------------------- supersession

  /** An accepted write closes the record it names as superseded exactly when that is not the one it writes. */
  lemma SupersessionIff(kb: Kb, id: string, fact: Fact, validTo: Option<Stamp>, now: Stamp, s: string)
    requires fact.supersedes == Some(s) && s in kb && kb[s].status != Superseded
    requires id in kb ==> kb[id].status != Superseded
    ensures var after := Step(kb, WriteFact(id, fact, validTo, true), now).kb;
            && s in after && (after[s].status == Superseded <==> s != id)
            && after[s].validTo == if s != id then Some(now) else validTo
  {
  }

  /** Call `i` of the history is an accepted write of another record that names `s` as superseded. */
  ghost predicate SupersedesAt(h: seq<Tick>, i: nat, s: string) {
    && i < |h| && h[i].op.WriteFact? && h[i].op.claimsDraft && h[i].op.fact.supersedes == Some(s) && h[i].op.id != s
    && s in Run(h[..i])
    && (h[i].op.id in Run(h[..i]) ==> Run(h[..i])[h[i].op.id].status != Superseded)
  }

  lemma StepSupersedes(h: seq<Tick>, i: nat, s: string)
    requires i < |h|
    ensures s in Run(h[..i + 1]) && Run(h[..i + 1])[s].status == Superseded <==>
            SupersedesAt(h, i, s) || (s in Run(h[..i]) && Run(h[..i])[s].status == Superseded)
  {
    RunSnoc(h, i);
    var kb, op := Run(h[..i]), h[i].op;
    if s in kb && op.Promote? && s == op.id {
      PromotionAllowedIff(kb[s], op.to);
    }
  }

  /**
   * Over any history a record is superseded exactly when some accepted write of another record named it while it
   * existed; nothing else supersedes a record, and nothing undoes it.
   */
  lemma {:induction false} SupersededIff(h: seq<Tick>, n: nat, s: string)
    requires n <= |h|
    ensures s in Run(h[..n]) && Run(h[..n])[s].status == Superseded <==> exists i :: 0 <= i < n && SupersedesAt(h, i, s)
    decreases n
  {
    if n > 0 {
      SupersededIff(h, n - 1, s);
      StepSupersedes(h, n - 1, s);
    }
  }
}
