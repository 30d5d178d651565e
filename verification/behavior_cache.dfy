/** The behavior repository: link mutations with their cache invalidation, and the cached
    batch query. */
module BehaviorCache {
  import opened Text
  import opened Numerals
  import opened Cache
  import opened Behaviors
  import opened Runs

  /** The arguments a cached answer belongs to. */
  datatype QueryKey = CacheKey(companion: Uuid, rel: Option<Uuid>, eligibleOnly: bool)

  /** `_behavior_cache_key`; ids appear as colon-free text. */
  function KeyText(k: QueryKey): string {
    Join([Decimal(k.companion), RelText(k.rel), FilterText(k.eligibleOnly)], ':')
  }

  function RelText(rel: Option<Uuid>): string {
    if rel.Some? then Decimal(rel.value) else "none"
  }

  function FilterText(eligibleOnly: bool): string {
    if eligibleOnly then "ce" else "all"
  }

  /** The text tells all queries apart, so the cache may be keyed by it. */
  lemma KeyTextInjective(k: QueryKey, l: QueryKey)
    requires KeyText(k) == KeyText(l)
    ensures k == l
  {
    var p := [Decimal(k.companion), RelText(k.rel), FilterText(k.eligibleOnly)];
    var q := [Decimal(l.companion), RelText(l.rel), FilterText(l.eligibleOnly)];
    SplitOfJoin(p, ':');
    SplitOfJoin(q, ':');
    assert p[0] == q[0] && p[1] == q[1] && p[2] == q[2];
    DecimalInjective(k.companion, l.companion);
    RelTextInjective(k.rel, l.rel);
    assert FilterText(true)[0] == 'c' && FilterText(false)[0] == 'a';
  }

  lemma RelTextInjective(r: Option<Uuid>, q: Option<Uuid>)
    requires RelText(r) == RelText(q)
    ensures r == q
  {
    assert RelText(None)[0] == 'n';
    if r.Some? && q.Some? {
      DecimalInjective(r.value, q.value);
    }
  }

  // ---------------------------------------------------------------- link mutations

  datatype LinkOp =
    | Create(id: LinkId, link: Link)
    | Update(id: LinkId, enabled: Option<bool>, eligible: Option<bool>, config: Option<string>)
    | Delete(id: LinkId)
    | DeleteByKey(companion: Uuid, key: string, rel: Option<Uuid>)

  /** The links an operation hits. */
  function Hits(links: Links, op: LinkOp): set<LinkId> {
    match op
    case Create(id, _) => {}
    case Update(id, _, _, _) => if id in links then {id} else {}
    case Delete(id) => if id in links then {id} else {}
    case DeleteByKey(c, key, rel) =>
      set id | id in links && links[id].companion == c && links[id].key == key && links[id].rel == rel
  }

  /** The links after the operation. */
  function Applied(links: Links, op: LinkOp): Links {
    match op
    case Create(id, link) => links[id := link]
    case Update(id, enabled, eligible, config) =>
      if id !in links then links
      else links[id := links[id].(enabled := if enabled.Some? then enabled.value else links[id].enabled,
                                  eligible := if eligible.Some? then eligible.value else links[id].eligible,
                                  config := if config.Some? then config.value else links[id].config)]
    case Delete(_) => links - Hits(links, op)
    case DeleteByKey(_, _, _) => links - Hits(links, op)
  }

  /** An update that sets no field: it succeeds without touching the database. */
  predicate EmptyUpdate(op: LinkOp) {
    op.Update? && op.enabled.None? && op.eligible.None? && op.config.None?
  }

  /** The companion and relationship whose entries the operation invalidates, if it changed
      anything. An update without fields runs no statement. */
  function Touched(links: Links, op: LinkOp): Option<(Uuid, Option<Uuid>)> {
    match op
    case Create(_, link) => Some((link.companion, link.rel))
    case Update(id, enabled, eligible, config) =>
      if id in links && !EmptyUpdate(op) then Some((links[id].companion, links[id].rel))
      else None
    case Delete(id) => if id in links then Some((links[id].companion, links[id].rel)) else None
    case DeleteByKey(c, _, rel) => if Hits(links, op) != {} then Some((c, rel)) else None
  }

  /** A change of links outside a query's companion and relationship does not show in it. */
  lemma QueryUnaffected(links: Links, op: LinkOp, c: Uuid, rel: Option<Uuid>, e: bool)
    requires op.Create? ==> op.id !in links
    requires match Touched(links, op)
             case None => true
             case Some((tc, tr)) => tc != c || (tr.Some? && tr != rel)
    ensures Scope(Applied(links, op), c, rel, e) == Scope(links, c, rel, e)
  {
    var after := Applied(links, op);
    if Touched(links, op).None? {
      UntouchedUnchanged(links, op);
    } else {
      forall id ensures id in Scope(after, c, rel, e) <==> id in Scope(links, c, rel, e) {
      }
    }
  }

  lemma UntouchedUnchanged(links: Links, op: LinkOp)
    ensures Touched(links, op).None? ==> Applied(links, op) == links
  {
    if op.Update? && op.id in links {
      assert links[op.id := links[op.id]] == links;
    } else if op.Delete? || op.DeleteByKey? {
      assert links - {} == links;
    }
  }

  type Entries = map<QueryKey, Entry<Links>>

  /** `invalidate_behavior_cache`: both variants for the pair, and with a relationship also both
      for the companion alone. */
  function TouchedKeys(c: Uuid, rel: Option<Uuid>): set<QueryKey> {
    {CacheKey(c, rel, true), CacheKey(c, rel, false), CacheKey(c, None, true), CacheKey(c, None, false)}
  }

  function Invalidated(entries: Entries, c: Uuid, rel: Option<Uuid>): Entries {
    entries - TouchedKeys(c, rel)
  }

  /** The cached answer of a query, live or not, is the query's answer now. */
  ghost predicate Current(links: Links, entries: Entries, c: Uuid, rel: Option<Uuid>, e: bool) {
    var key := CacheKey(c, rel, e);
    key in entries ==> IsQuery(links, c, rel, e, entries[key].val)
  }

  function EntriesAfter(links: Links, entries: Entries, op: LinkOp): Entries {
    match Touched(links, op)
    case None => entries
    case Some((c, rel)) => Invalidated(entries, c, rel)
  }

  /** Every link mutation keeps an entry current, except that a companion-level mutation leaves
      that companion's relationship-level entries behind. */
  lemma MutationKeepsCurrent(links: Links, entries: Entries, op: LinkOp, c: Uuid, rel: Option<Uuid>, e: bool)
    requires Current(links, entries, c, rel, e) && (op.Create? ==> op.id !in links)
    requires !(Touched(links, op) == Some((c, None)) && rel.Some?)
    ensures Current(Applied(links, op), EntriesAfter(links, entries, op), c, rel, e)
  {
    var t := Touched(links, op);
    if t.Some? && t.value.0 == c && (t.value.1 == rel || rel.None?) {
    } else {
      QueryUnaffected(links, op, c, rel, e);
    }
  }

  // ---------------------------------------------------------------- what stays behind

  /** The links an operation creates, changes or removes. */
  function Affected(links: Links, op: LinkOp): set<LinkId> {
    if op.Create? then {op.id} else Hits(links, op)
  }

  function KeyOf(links: Links, op: LinkOp, id: LinkId): string
    requires id in links || op.Create?
  {
    if id in links then links[id].key else op.link.key
  }

  predicate HasOverride(scope: Links, key: string) {
    exists w :: w in scope && scope[w].key == key && scope[w].rel.Some?
  }

  predicate SameRow(a: Links, b: Links, id: LinkId) {
    (id in a <==> id in b) && (id in a ==> a[id] == b[id])
  }

  function RelOf(links: Links, op: LinkOp, id: LinkId): Option<Uuid>
    requires id in links || op.Create?
  {
    if id in links then links[id].rel else op.link.rel
  }

  /** A query does not see what the operation does to a link: the link is in its scope with the
      same row before and after, or in neither; or it is a default, and an override of its key is
      in scope. */
  predicate Unseen(links: Links, op: LinkOp, id: LinkId, c: Uuid, rel: Option<Uuid>, e: bool)
    requires id in links || op.Create?
  {
    || (RelOf(links, op, id).None? && HasOverride(Scope(links, c, rel, e), KeyOf(links, op, id)))
    || SameRow(Scope(links, c, rel, e), Scope(Applied(links, op), c, rel, e), id)
  }

  lemma AffectedAreDefaults(links: Links, op: LinkOp, c: Uuid, id: LinkId)
    requires Touched(links, op) == Some((c, None)) && (op.Create? ==> op.id !in links) && id in Affected(links, op)
    ensures RelOf(links, op, id).None? && (id in links ==> links[id].rel.None? && links[id].companion == c)
    ensures var after := Applied(links, op);
            id in after ==> after[id].rel.None? && after[id].companion == c && after[id].key == KeyOf(links, op, id)
  {
  }

  lemma UnaffectedSame(links: Links, op: LinkOp, c: Uuid, rel: Option<Uuid>, e: bool)
    requires op.Create? ==> op.id !in links
    ensures forall id :: id !in Affected(links, op) ==>
              SameRow(Scope(links, c, rel, e), Scope(Applied(links, op), c, rel, e), id)
  {
  }

  /** A companion-level mutation does not invalidate the entries of the companion's relationships.
      Such an entry is still an answer exactly when the query sees none of what was done. */
  lemma CompanionMutationExact(links: Links, op: LinkOp, c: Uuid, r: Uuid, e: bool, answer: Links)
    requires OneLinkEach(links) && OneLinkEach(Applied(links, op)) && (op.Create? ==> op.id !in links)
    requires Touched(links, op) == Some((c, None)) && IsQuery(links, c, Some(r), e, answer)
    ensures IsQuery(Applied(links, op), c, Some(r), e, answer) <==>
            forall id :: id in Affected(links, op) ==> Unseen(links, op, id, c, Some(r), e)
  {
    if forall id :: id in Affected(links, op) ==> Unseen(links, op, id, c, Some(r), e) {
      UnseenKeeps(links, op, c, r, e, answer);
    }
    if IsQuery(Applied(links, op), c, Some(r), e, answer) {
      forall id | id in Affected(links, op) ensures Unseen(links, op, id, c, Some(r), e) {
        KeptAllUnseen(links, op, c, r, e, answer, id);
      }
    }
  }

  lemma KeptAllUnseen(links: Links, op: LinkOp, c: Uuid, r: Uuid, e: bool, answer: Links, id: LinkId)
    requires OneLinkEach(links) && OneLinkEach(Applied(links, op)) && (op.Create? ==> op.id !in links)
    requires Touched(links, op) == Some((c, None)) && IsQuery(links, c, Some(r), e, answer)
    requires IsQuery(Applied(links, op), c, Some(r), e, answer) && id in Affected(links, op)
    ensures Unseen(links, op, id, c, Some(r), e)
  {
    AffectedAreDefaults(links, op, c, id);
    if !HasOverride(Scope(links, c, Some(r), e), KeyOf(links, op, id)) {
      KeptUnseen(links, op, c, r, e, answer, id);
    }
  }

  lemma UnseenKeeps(links: Links, op: LinkOp, c: Uuid, r: Uuid, e: bool, answer: Links)
    requires op.Create? ==> op.id !in links
    requires Touched(links, op) == Some((c, None)) && IsQuery(links, c, Some(r), e, answer)
    requires forall id :: id in Affected(links, op) ==> Unseen(links, op, id, c, Some(r), e)
    ensures IsQuery(Applied(links, op), c, Some(r), e, answer)
  {
    var before, after := Scope(links, c, Some(r), e), Scope(Applied(links, op), c, Some(r), e);
    UnaffectedSame(links, op, c, Some(r), e);
    forall id | id in answer ensures id in after && answer[id] == after[id] {
      if id in Affected(links, op) {
        AffectedAreDefaults(links, op, c, id);
        assert !HasOverride(before, before[id].key);
      }
    }
    forall id | id in after ensures HasKey(answer, after[id].key) {
      if id in Affected(links, op) && HasOverride(before, KeyOf(links, op, id)) {
        AffectedAreDefaults(links, op, c, id);
        var w :| w in before && before[w].key == KeyOf(links, op, id) && before[w].rel.Some?;
        assert HasKey(answer, before[w].key);
      } else {
        assert HasKey(answer, before[id].key);
      }
    }
    forall w, id | w in answer && id in after ensures !Outranks(after[id], answer[w]) {
      if id in Affected(links, op) {
        AffectedAreDefaults(links, op, c, id);
      }
    }
  }

  lemma KeptUnseen(links: Links, op: LinkOp, c: Uuid, r: Uuid, e: bool, answer: Links, id: LinkId)
    requires OneLinkEach(links) && OneLinkEach(Applied(links, op)) && (op.Create? ==> op.id !in links)
    requires Touched(links, op) == Some((c, None)) && id in Affected(links, op)
    requires IsQuery(links, c, Some(r), e, answer) && IsQuery(Applied(links, op), c, Some(r), e, answer)
    requires !HasOverride(Scope(links, c, Some(r), e), KeyOf(links, op, id))
    ensures SameRow(Scope(links, c, Some(r), e), Scope(Applied(links, op), c, Some(r), e), id)
  {
    var before, after := Scope(links, c, Some(r), e), Scope(Applied(links, op), c, Some(r), e);
    AffectedAreDefaults(links, op, c, id);
    var key := KeyOf(links, op, id);
    if id in before || id in after {
      assert HasKey(answer, key) by {
        assert id in before ==> HasKey(answer, before[id].key);
        assert id in after ==> HasKey(answer, after[id].key);
      }
      var w :| w in answer && answer[w].key == key;
      assert answer[w] == before[w] == after[w] && before[w].rel.None?;
      assert id in before ==> SameSlot(links[w], links[id]);
      assert id in after ==> SameSlot(Applied(links, op)[w], Applied(links, op)[id]);
    }
  }

  lemma RowsEqual(a: Links, b: Links)
    requires forall id :: SameRow(a, b, id)
    ensures a == b
  {
    assert forall id :: id in a ==> SameRow(a, b, id);
    assert forall id :: id in b ==> SameRow(a, b, id);
  }

  /** An override is of its relationship's scope and outranks whatever has its key. */
  lemma OverrideAnswers(links: Links, c: Uuid, r: Uuid, e: bool, answer: Links, id: LinkId)
    requires OneLinkEach(links) && IsQuery(links, c, Some(r), e, answer)
    requires id in Scope(links, c, Some(r), e) && links[id].rel == Some(r)
    ensures id in answer && answer[id] == links[id]
  {
    var scope := Scope(links, c, Some(r), e);
    assert HasKey(answer, scope[id].key);
    var w :| w in answer && answer[w].key == scope[id].key;
    assert !Outranks(scope[id], answer[w]);
    assert SameSlot(links[w], links[id]);
  }

  /** A mutation of an override leaves an earlier answer an answer exactly when the query sees none
      of what was done. */
  lemma OverrideMutationExact(links: Links, op: LinkOp, c: Uuid, r: Uuid, e: bool, answer: Links)
    requires OneLinkEach(links) && OneLinkEach(Applied(links, op)) && (op.Create? ==> op.id !in links)
    requires Touched(links, op) == Some((c, Some(r))) && IsQuery(links, c, Some(r), e, answer)
    ensures IsQuery(Applied(links, op), c, Some(r), e, answer) <==>
            forall id :: id in Affected(links, op) ==> Unseen(links, op, id, c, Some(r), e)
  {
    var before, after := Scope(links, c, Some(r), e), Scope(Applied(links, op), c, Some(r), e);
    forall id | id in Affected(links, op) ensures Unseen(links, op, id, c, Some(r), e) <==> SameRow(before, after, id) {
      AffectedAreOverrides(links, op, c, r, id);
    }
    SameScope(links, op, c, Some(r), e);
    if IsQuery(Applied(links, op), c, Some(r), e, answer) {
      forall id | id in Affected(links, op) ensures SameRow(before, after, id) {
        AffectedAreOverrides(links, op, c, r, id);
        if id in before {
          OverrideAnswers(links, c, r, e, answer, id);
        }
        if id in after {
          OverrideAnswers(Applied(links, op), c, r, e, answer, id);
        }
      }
    }
  }

  lemma AffectedAreOverrides(links: Links, op: LinkOp, c: Uuid, r: Uuid, id: LinkId)
    requires Touched(links, op) == Some((c, Some(r))) && (op.Create? ==> op.id !in links) && id in Affected(links, op)
    ensures RelOf(links, op, id) == Some(r) && (id in links ==> links[id].rel == Some(r))
    ensures id in Applied(links, op) ==> Applied(links, op)[id].rel == Some(r)
  {
  }

  lemma SameScope(links: Links, op: LinkOp, c: Uuid, rel: Option<Uuid>, e: bool)
    requires op.Create? ==> op.id !in links
    ensures Scope(links, c, rel, e) == Scope(Applied(links, op), c, rel, e) <==>
            forall id :: id in Affected(links, op) ==>
              SameRow(Scope(links, c, rel, e), Scope(Applied(links, op), c, rel, e), id)
  {
    UnaffectedSame(links, op, c, rel, e);
    if forall id :: id in Affected(links, op) ==>
         SameRow(Scope(links, c, rel, e), Scope(Applied(links, op), c, rel, e), id) {
      RowsEqual(Scope(links, c, rel, e), Scope(Applied(links, op), c, rel, e));
    }
  }

  /** Of any mutation and any query: an answer from before is still one exactly when the query
      sees none of what was done. */
  lemma MutationExact(links: Links, op: LinkOp, c: Uuid, rel: Option<Uuid>, e: bool, answer: Links)
    requires rel.Some? ==> OneLinkEach(links) && OneLinkEach(Applied(links, op))
    requires (op.Create? ==> op.id !in links) && IsQuery(links, c, rel, e, answer)
    ensures IsQuery(Applied(links, op), c, rel, e, answer) <==>
            forall id :: id in Affected(links, op) ==> Unseen(links, op, id, c, rel, e)
  {
    var touched := Touched(links, op);
    if rel.None? {
      assert forall key :: !HasOverride(Scope(links, c, None, e), key);
      SameScope(links, op, c, None, e);
    } else if touched == Some((c, None)) {
      CompanionMutationExact(links, op, c, rel.value, e, answer);
    } else if touched == Some((c, rel)) {
      OverrideMutationExact(links, op, c, rel.value, e, answer);
    } else {
      QueryUnaffected(links, op, c, rel, e);
      SameScope(links, op, c, rel, e);
    }
  }

  // ---------------------------------------------------------------- changes without invalidation

  /** A deleted row that links refer to with ON DELETE CASCADE. */
  datatype Parent = OfBehavior(behavior: BehaviorId) | OfRelationship(rel: Uuid) | OfCompanion(companion: Uuid)

  predicate Depends(l: Link, parent: Parent) {
    match parent
    case OfBehavior(b) => l.behavior == b
    case OfRelationship(r) => l.rel == Some(r)
    case OfCompanion(c) => l.companion == c
  }

  /** The links left by the cascade. */
  function Cascaded(links: Links, parent: Parent): Links {
    map id | id in links && !Depends(links[id], parent) :: links[id]
  }

  predicate NoneDepends(rows: Links, parent: Parent) {
    forall id :: id in rows ==> !Depends(rows[id], parent)
  }

  /** Deleting a behavior, a relationship or a companion invalidates nothing: an answer, of
      whatever query, is still one exactly when it holds no link that goes with it. */
  lemma CascadeExact(links: Links, parent: Parent, c: Uuid, rel: Option<Uuid>, e: bool, answer: Links)
    requires IsQuery(links, c, rel, e, answer)
    ensures IsQuery(Cascaded(links, parent), c, rel, e, answer) <==> NoneDepends(answer, parent)
  {
    var small, big := Scope(Cascaded(links, parent), c, rel, e), Scope(links, c, rel, e);
    assert small == Cascaded(big, parent);
    if rel.None? {
      assert NoneDepends(answer, parent) ==> small == big;
    } else {
      CascadeRanked(big, parent, answer);
    }
  }

  lemma CascadeRanked(scope: Links, parent: Parent, answer: Links)
    requires IsRanked(scope, answer)
    ensures IsRanked(Cascaded(scope, parent), answer) <==> NoneDepends(answer, parent)
  {
    var small := Cascaded(scope, parent);
    if NoneDepends(answer, parent) {
      forall id | id in small ensures HasKey(answer, small[id].key) {
        assert HasKey(answer, scope[id].key);
      }
    } else {
      var id :| id in answer && Depends(answer[id], parent);
      assert id !in small;
    }
  }

  /** The links as joined after `update_behavior`. */
  function Rewritten(links: Links, b: BehaviorId, code: string): Links {
    map id | id in links :: if links[id].behavior == b then links[id].(code := code) else links[id]
  }

  predicate HasCode(rows: Links, b: BehaviorId, code: string) {
    forall id :: id in rows && rows[id].behavior == b ==> rows[id].code == code
  }

  /** So does updating one: an answer is still one exactly when it holds nothing but the new code. */
  lemma RewriteExact(links: Links, b: BehaviorId, code: string, c: Uuid, rel: Option<Uuid>, e: bool, answer: Links)
    requires IsQuery(links, c, rel, e, answer)
    ensures IsQuery(Rewritten(links, b, code), c, rel, e, answer) <==> HasCode(answer, b, code)
  {
    var after, before := Scope(Rewritten(links, b, code), c, rel, e), Scope(links, c, rel, e);
    assert after == Rewritten(before, b, code);
    if rel.None? {
      assert HasCode(answer, b, code) ==> after == before;
    } else {
      RewriteRanked(before, b, code, answer);
    }
  }

  lemma RewriteRanked(scope: Links, b: BehaviorId, code: string, answer: Links)
    requires IsRanked(scope, answer)
    ensures IsRanked(Rewritten(scope, b, code), answer) <==> HasCode(answer, b, code)
  {
    var after := Rewritten(scope, b, code);
    if HasCode(answer, b, code) {
      forall id | id in after ensures HasKey(answer, after[id].key) {
        assert HasKey(answer, scope[id].key);
      }
      assert RowsFrom(answer, after) && NoneOutranked(answer, after);
    } else {
      var id :| id in answer && answer[id].behavior == b && answer[id].code != code;
      assert answer[id] != after[id];
    }
  }

  /** For one, disabling a default leaves the override view serving it. */
  lemma CompanionMutationLeavesStale()
    ensures var links: Links := map[0 := Link(1, 2, "greet", None, true, true, "", "")];
            var op := Update(0, Some(false), None, None);
            var entries: Entries := map[CacheKey(1, Some(3), false) := Entry(10.0, links)];
            && Current(links, entries, 1, Some(3), false)
            && !Current(Applied(links, op), EntriesAfter(links, entries, op), 1, Some(3), false)
  {
    var links: Links := map[0 := Link(1, 2, "greet", None, true, true, "", "")];
    var op := Update(0, Some(false), None, None);
    var key := CacheKey(1, Some(3), false);
    var entries: Entries := map[key := Entry(10.0, links)];
    assert Scope(links, 1, Some(3), false) == links;
    assert links[0].key == "greet";
    assert HasKey(links, "greet");
    assert key in EntriesAfter(links, entries, op);
    assert 0 !in Scope(Applied(links, op), 1, Some(3), false);
  }

  // ---------------------------------------------------------------- interleaved calls

  type Task = nat

  /** The links as they were when a query ran. */
  datatype Moment = Moment(time: real, links: Links)

  /** A cached query between the answer of the database and its `cache.set`; `overtaken` once its
      key has been invalidated for a mutation committed after it. */
  datatype Pending = Pending(key: QueryKey, answer: Links, moment: nat, overtaken: bool)

  /** The invalidation of a committed mutation that has not run yet; `at` queries came before it. */
  datatype Debt = Debt(companion: Uuid, rel: Option<Uuid>, at: nat)

  datatype Server = Server(links: Links, entries: Entries, pending: map<Task, Pending>, owed: map<Task, Debt>,
                           log: seq<Moment>, clock: real, life: real)

  /** What runs between two awaits. */
  datatype Step =
    | Hit(key: QueryKey, now: real)
    | Fetch(task: Task, key: QueryKey, answer: Links, now: real)
    | Store(task: Task, now: real)
    | Commit(task: Task, op: LinkOp)
    | Invalidate(task: Task)
    | Cascade(parent: Parent)
    | Rewrite(behavior: BehaviorId, code: string)

  ghost predicate Answers(links: Links, key: QueryKey, answer: Links) {
    IsQuery(links, key.companion, key.rel, key.eligibleOnly, answer)
  }

  /** A create fails on the unique index over companion, behavior and relationship. */
  predicate Clashes(links: Links, link: Link) {
    exists id :: id in links && links[id].companion == link.companion && links[id].behavior == link.behavior
                 && links[id].rel == link.rel
  }

  predicate Allowed(links: Links, op: LinkOp) {
    op.Create? ==> op.id !in links && !Clashes(links, op.link)
  }

  predicate Free(s: Server, task: Task) {
    task !in s.pending && task !in s.owed
  }

  /** With one behavior for each key, the unique index keeps one link for each companion, key and
      relationship. */
  lemma MutationKeepsOneLink(links: Links, op: LinkOp)
    requires OneLinkEach(links) && Allowed(links, op)
    requires op.Create? ==>
               forall id :: id in links && links[id].key == op.link.key ==> links[id].behavior == op.link.behavior
    ensures OneLinkEach(Applied(links, op))
  {
    var after := Applied(links, op);
    forall x, y | x in after && y in after && SameSlot(after[x], after[y]) ensures x == y {
      assert x in links && y in links ==> SameSlot(links[x], links[y]);
    }
  }

  ghost predicate Enabled(s: Server, t: Step) {
    match t
    case Hit(_, now) => now >= s.clock
    case Fetch(task, key, answer, now) => Free(s, task) && now >= s.clock && Answers(s.links, key, answer)
    case Store(task, now) => task in s.pending && now >= s.clock
    case Commit(task, op) => Free(s, task) && Allowed(s.links, op)
    case Invalidate(task) => task in s.owed
    case Cascade(_) => true
    case Rewrite(_, _) => true
  }

  predicate Owes(d: Debt, key: QueryKey) {
    key in TouchedKeys(d.companion, d.rel)
  }

  function Overtake(p: Pending, d: Debt): Pending {
    if Owes(d, p.key) && p.moment < d.at then p.(overtaken := true) else p
  }

  function After(s: Server, t: Step): Server {
    match t
    case Hit(key, now) => s.(entries := Next(s.entries, GetCall(key, now)), clock := now)
    case Fetch(task, key, answer, now) =>
      s.(pending := s.pending[task := Pending(key, answer, |s.log|, false)],
         log := s.log + [Moment(now, s.links)], clock := now)
    case Store(task, now) =>
      if task !in s.pending then s
      else s.(entries := s.entries[s.pending[task].key := Entry(now + s.life, s.pending[task].answer)],
              pending := s.pending - {task}, clock := now)
    case Commit(task, op) =>
      var touched := Touched(s.links, op);
      s.(links := Applied(s.links, op),
         owed := if touched.Some? then s.owed[task := Debt(touched.value.0, touched.value.1, |s.log|)] else s.owed)
    case Invalidate(task) =>
      if task !in s.owed then s
      else
        var d := s.owed[task];
        s.(entries := Invalidated(s.entries, d.companion, d.rel), owed := s.owed - {task},
           pending := map k | k in s.pending :: Overtake(s.pending[k], d))
    case Cascade(parent) => s.(links := Cascaded(s.links, parent))
    case Rewrite(b, code) => s.(links := Rewritten(s.links, b, code))
  }

  /** An invalidation overtakes exactly the queries of its keys that were answered before its
      mutation committed, and nothing else overtakes any. */
  lemma OvertakesExactly(s: Server, t: Step, k: Task)
    requires k in s.pending && k in After(s, t).pending && !t.Fetch?
    ensures var p := s.pending[k];
            After(s, t).pending[k].overtaken <==>
              || p.overtaken
              || (t.Invalidate? && t.task in s.owed && p.moment < s.owed[t.task].at
                  && p.key.companion == s.owed[t.task].companion
                  && (p.key.rel == None || p.key.rel == s.owed[t.task].rel))
  {
    if t.Invalidate? && t.task in s.owed {
      TouchesKey(s.owed[t.task].companion, s.owed[t.task].rel, s.pending[k].key);
    }
  }

  function Started(life: real): Server {
    Server(map[], map[], map[], map[], [], 0.0, life)
  }

  // ---------------------------------------------------------------- when the cache is current

  /** An invalidation of the key is still to come. */
  predicate Owed(s: Server, key: QueryKey) {
    exists k :: k in s.owed && Owes(s.owed[k], key)
  }

  /** One is that will reach a query answered at this moment. */
  predicate Covered(s: Server, key: QueryKey, moment: nat) {
    exists k :: k in s.owed && Owes(s.owed[k], key) && moment < s.owed[k].at
  }

  /** The key's entry, or what is about to be stored there, with no invalidation to come for it. */
  ghost predicate Exposed(s: Server, key: QueryKey, answer: Links) {
    || (key in s.entries && s.entries[key].val == answer && !Owed(s, key))
    || (exists k :: k in s.pending && s.pending[k].key == key && !s.pending[k].overtaken
                    && s.pending[k].answer == answer && !Covered(s, key, s.pending[k].moment))
  }

  predicate WellTimed(s: Server) {
    forall k :: k in s.pending ==> s.pending[k].moment < |s.log|
  }

  /** Whatever is exposed for the key is the query's answer now. */
  ghost predicate Fresh(s: Server, key: QueryKey) {
    WellTimed(s) && forall answer :: Exposed(s, key, answer) ==> Answers(s.links, key, answer)
  }

  /** A companion-level mutation invalidates no relationship's entries. */
  predicate BehindBack(links: Links, op: LinkOp, key: QueryKey) {
    key.rel.Some? && Touched(links, op) == Some((key.companion, None))
  }

  predicate AllUnseen(links: Links, op: LinkOp, key: QueryKey) {
    forall id :: id in Affected(links, op) ==> Unseen(links, op, id, key.companion, key.rel, key.eligibleOnly)
  }

  /** The answer stands a change of links that will not be invalidated for the key. */
  ghost predicate Stands(s: Server, t: Step, key: QueryKey, answer: Links) {
    match t
    case Commit(_, op) => BehindBack(s.links, op, key) ==> AllUnseen(s.links, op, key)
    case Cascade(parent) => NoneDepends(answer, parent)
    case Rewrite(b, code) => HasCode(answer, b, code)
    case _ => true
  }

  /** An answer is not stored after its key has been invalidated for a later mutation, and what is
      exposed stands every change. */
  ghost predicate Careful(s: Server, t: Step, key: QueryKey) {
    && (t.Store? && t.task in s.pending && s.pending[t.task].key == key ==> !s.pending[t.task].overtaken)
    && (forall answer :: Exposed(s, key, answer) ==> Stands(s, t, key, answer))
  }

  /** The mutation owes the key an invalidation. */
  predicate Incurs(s: Server, t: Step, key: QueryKey)
    requires t.Commit?
  {
    t.task in After(s, t).owed && Owes(After(s, t).owed[t.task], key)
  }

  /** A mutation either owes the key its invalidation or leaves the answer standing. */
  lemma CommitShows(s: Server, t: Step, key: QueryKey, answer: Links)
    requires Enabled(s, t) && t.Commit? && Stands(s, t, key, answer) && Answers(s.links, key, answer)
    requires !Incurs(s, t, key)
    ensures Answers(After(s, t).links, key, answer)
  {
    var touched, c := Touched(s.links, t.op), key.companion;
    if BehindBack(s.links, t.op, key) {
      UnseenKeeps(s.links, t.op, c, key.rel.value, key.eligibleOnly, answer);
    } else {
      assert touched.Some? ==> After(s, t).owed[t.task] == Debt(touched.value.0, touched.value.1, |s.log|);
      QueryUnaffected(s.links, t.op, c, key.rel, key.eligibleOnly);
    }
  }

  /** What a committed mutation owes covers everything held for the key. */
  lemma CommitCovers(s: Server, t: Step, key: QueryKey)
    requires Enabled(s, t) && t.Commit? && WellTimed(s) && Incurs(s, t, key)
    ensures forall answer :: !Exposed(After(s, t), key, answer)
  {
    var n := After(s, t);
    assert Owed(n, key);
    assert n.owed[t.task].at == |s.log|;
    assert forall k :: k in n.pending ==> Covered(n, key, n.pending[k].moment);
  }

  lemma OwedGrows(s: Server, n: Server, key: QueryKey)
    requires forall k :: k in s.owed ==> k in n.owed && n.owed[k] == s.owed[k]
    ensures Owed(s, key) ==> Owed(n, key)
    ensures forall moment: nat :: Covered(s, key, moment) ==> Covered(n, key, moment)
  {
    if Owed(s, key) {
      var k :| k in s.owed && Owes(s.owed[k], key);
      assert k in n.owed && Owes(n.owed[k], key);
    }
    forall moment: nat | Covered(s, key, moment) ensures Covered(n, key, moment) {
      var k :| k in s.owed && Owes(s.owed[k], key) && moment < s.owed[k].at;
      assert k in n.owed && Owes(n.owed[k], key) && moment < n.owed[k].at;
    }
  }

  lemma OwedShrinks(s: Server, n: Server, task: Task, key: QueryKey)
    requires task in s.owed && n.owed == s.owed - {task}
    ensures Owed(s, key) ==> Owed(n, key) || Owes(s.owed[task], key)
    ensures forall moment: nat :: Covered(s, key, moment) ==>
              Covered(n, key, moment) || (Owes(s.owed[task], key) && moment < s.owed[task].at)
  {
    if Owed(s, key) {
      var k :| k in s.owed && Owes(s.owed[k], key);
      assert k == task || k in n.owed;
    }
    forall moment: nat | Covered(s, key, moment)
      ensures Covered(n, key, moment) || (Owes(s.owed[task], key) && moment < s.owed[task].at)
    {
      var k :| k in s.owed && Owes(s.owed[k], key) && moment < s.owed[k].at;
      assert k == task || k in n.owed;
    }
  }

  /** An invalidation removes the entry and overtakes what it covered; the rest stays as exposed
      as it was. */
  lemma InvalidateExposes(s: Server, t: Step, key: QueryKey, answer: Links)
    requires Enabled(s, t) && t.Invalidate? && Exposed(After(s, t), key, answer)
    ensures Exposed(s, key, answer)
  {
    OwedShrinks(s, After(s, t), t.task, key);
  }

  /** A mutation that owes the key nothing exposes nothing new. */
  lemma CommitExposes(s: Server, t: Step, key: QueryKey, answer: Links)
    requires Enabled(s, t) && t.Commit? && !Incurs(s, t, key) && Exposed(After(s, t), key, answer)
    ensures Exposed(s, key, answer)
  {
    OwedGrows(s, After(s, t), key);
  }

  lemma CoveredIsOwed(s: Server, key: QueryKey)
    ensures forall moment: nat :: Covered(s, key, moment) ==> Owed(s, key)
  {
  }

  /** The steps that owe nothing new and repay nothing. */
  lemma OthersExpose(s: Server, t: Step, key: QueryKey, answer: Links)
    requires Enabled(s, t) && !t.Commit? && !t.Invalidate? && Careful(s, t, key)
    requires Exposed(After(s, t), key, answer)
    ensures Exposed(s, key, answer) || (t.Fetch? && t.key == key && t.answer == answer)
  {
    assert After(s, t).owed == s.owed;
    CoveredIsOwed(s, key);
  }

  /** What stands a step is still an answer after it. */
  lemma StandsShow(s: Server, t: Step, key: QueryKey, answer: Links)
    requires Enabled(s, t) && !t.Commit? && Stands(s, t, key, answer) && Answers(s.links, key, answer)
    ensures Answers(After(s, t).links, key, answer)
  {
    match t
    case Cascade(parent) => CascadeExact(s.links, parent, key.companion, key.rel, key.eligibleOnly, answer);
    case Rewrite(b, code) => RewriteExact(s.links, b, code, key.companion, key.rel, key.eligibleOnly, answer);
    case _ =>
  }

  /** Every step keeps that, in whatever order the calls interleave. */
  lemma StepKeepsFresh(s: Server, t: Step, key: QueryKey)
    requires Enabled(s, t) && Fresh(s, key) && Careful(s, t, key)
    ensures Fresh(After(s, t), key)
  {
    var n := After(s, t);
    if t.Commit? && Incurs(s, t, key) {
      CommitCovers(s, t, key);
    } else {
      forall answer | Exposed(n, key, answer) ensures Answers(n.links, key, answer) {
        if t.Commit? {
          CommitExposes(s, t, key, answer);
          CommitShows(s, t, key, answer);
        } else if t.Invalidate? {
          InvalidateExposes(s, t, key, answer);
        } else {
          OthersExpose(s, t, key, answer);
          if Exposed(s, key, answer) {
            StandsShow(s, t, key, answer);
          }
        }
      }
    }
  }

  /** What was exposed before a change without invalidation is exposed after it. */
  lemma ChangeExposes(s: Server, t: Step, key: QueryKey, answer: Links)
    requires Enabled(s, t) && Exposed(s, key, answer)
    requires t.Cascade? || t.Rewrite? || (t.Commit? && BehindBack(s.links, t.op, key))
    ensures Exposed(After(s, t), key, answer)
  {
    if t.Commit? {
      assert s.owed == After(s, t).owed - {t.task};
      OwedShrinks(After(s, t), s, t.task, key);
    }
  }

  /** And the discipline is exact for every change of links: it keeps the key fresh exactly when
      what is exposed stands it. */
  lemma ChangeKeepsExactly(s: Server, t: Step, key: QueryKey)
    requires Enabled(s, t) && Fresh(s, key) && (t.Commit? || t.Cascade? || t.Rewrite?)
    requires t.Commit? && BehindBack(s.links, t.op, key) ==> OneLinkEach(s.links) && OneLinkEach(Applied(s.links, t.op))
    ensures Fresh(After(s, t), key) <==> Careful(s, t, key)
  {
    var c, rel, e := key.companion, key.rel, key.eligibleOnly;
    if Careful(s, t, key) {
      StepKeepsFresh(s, t, key);
    }
    if Fresh(After(s, t), key) {
      forall answer | Exposed(s, key, answer) ensures Stands(s, t, key, answer) {
        if t.Cascade? {
          ChangeExposes(s, t, key, answer);
          CascadeExact(s.links, t.parent, c, rel, e, answer);
        } else if t.Rewrite? {
          ChangeExposes(s, t, key, answer);
          RewriteExact(s.links, t.behavior, t.code, c, rel, e, answer);
        } else if BehindBack(s.links, t.op, key) {
          ChangeExposes(s, t, key, answer);
          MutationExact(s.links, t.op, c, rel, e, answer);
        }
      }
    }
  }

  ghost predicate CarefulRun(s: Server, steps: seq<Step>, key: QueryKey) {
    AllFine((r: Server, t: Step) => Enabled(r, t) && Careful(r, t, key), After, s, steps)
  }

  /** Over any run of interleaved calls, an answer from the cache is that of its query now, unless
      a mutation has been committed whose invalidation has not run yet. */
  lemma AnswersAreCurrent(life: real, steps: seq<Step>, key: QueryKey, now: real)
    requires CarefulRun(Started(life), steps, key)
    ensures var s := RunAll(After, Started(life), steps);
            var hit := Lookup(s.entries, key, now);
            hit.Some? && !Owed(s, key) ==> Answers(s.links, key, hit.value)
  {
    var fine := (r: Server, t: Step) => Enabled(r, t) && Careful(r, t, key);
    forall r, t | Fresh(r, key) && fine(r, t) ensures Fresh(After(r, t), key) {
      StepKeepsFresh(r, t, key);
    }
    RunKeeps((r: Server) => Fresh(r, key), fine, After, Started(life), steps);
    var s := RunAll(After, Started(life), steps);
    assert key in s.entries && !Owed(s, key) ==> Exposed(s, key, s.entries[key].val);
  }

  /** The query's answer arrives, the mutation runs to its end, the answer is stored. */
  function Overtaking(key: QueryKey, answer: Links, op: LinkOp, t: Task, u: Task, now: real): seq<Step> {
    [Fetch(t, key, answer, now), Commit(u, op), Invalidate(u), Store(t, now)]
  }

  lemma OvertakingRuns(s: Server, key: QueryKey, answer: Links, op: LinkOp, t: Task, u: Task, now: real)
    requires now >= s.clock && Free(s, t) && Free(s, u) && t != u && Allowed(s.links, op)
    requires Touched(s.links, op).Some? && Answers(s.links, key, answer)
    ensures AllFine(Enabled, After, s, Overtaking(key, answer, op, t, u, now))
    ensures var after := RunAll(After, s, Overtaking(key, answer, op, t, u, now));
            && after.links == Applied(s.links, op) && after.owed == s.owed && t !in after.pending
            && key in after.entries && after.entries[key].val == answer
  {
    var steps := Overtaking(key, answer, op, t, u, now);
    var s1 := After(s, steps[0]);
    var s2 := After(s1, steps[1]);
    var s3 := After(s2, steps[2]);
    assert u !in s3.owed && s3.owed == s.owed;
    RunOfFour(Enabled, After, s, steps[0], steps[1], steps[2], steps[3]);
  }

  /** A mutation while a query is under way: the entry stored at the end is current exactly when
      the query sees none of what was done. */
  lemma MutationDuringFetch(s: Server, key: QueryKey, answer: Links, op: LinkOp, t: Task, u: Task, now: real)
    requires now >= s.clock && Free(s, t) && Free(s, u) && t != u && Allowed(s.links, op)
    requires Touched(s.links, op).Some? && Answers(s.links, key, answer)
    requires key.rel.Some? ==> OneLinkEach(s.links) && OneLinkEach(Applied(s.links, op))
    ensures AllFine(Enabled, After, s, Overtaking(key, answer, op, t, u, now))
    ensures var after := RunAll(After, s, Overtaking(key, answer, op, t, u, now));
            && key in after.entries && after.owed == s.owed
            && (Answers(after.links, key, after.entries[key].val) <==> AllUnseen(s.links, op, key))
  {
    OvertakingRuns(s, key, answer, op, t, u, now);
    MutationExact(s.links, op, key.companion, key.rel, key.eligibleOnly, answer);
  }

  // ---------------------------------------------------------------- how old an answer can be

  /** At some moment no earlier than `since` the query gave this answer. */
  ghost predicate AnsweredSince(log: seq<Moment>, since: real, key: QueryKey, answer: Links) {
    exists n :: 0 <= n < |log| && log[n].time >= since && Answers(log[n].links, key, answer)
  }

  ghost predicate WasAnswered(s: Server, p: Pending) {
    p.moment < |s.log| && Answers(s.log[p.moment].links, p.key, p.answer)
  }

  /** With fetches of at most `d` seconds every entry was an answer at most `d` seconds before the
      start of its lifetime. */
  ghost predicate Recent(s: Server, d: real) {
    && (forall n :: 0 <= n < |s.log| ==> s.log[n].time <= s.clock)
    && (forall k :: k in s.pending ==> WasAnswered(s, s.pending[k]))
    && (forall key :: key in s.entries ==>
          AnsweredSince(s.log, s.entries[key].exp - s.life - d, key, s.entries[key].val))
  }

  /** A query is stored at most `d` seconds after it ran. */
  predicate Timely(s: Server, t: Step, d: real) {
    t.Store? && t.task in s.pending && s.pending[t.task].moment < |s.log| ==>
      t.now - s.log[s.pending[t.task].moment].time <= d
  }

  lemma LogGrows(log: seq<Moment>, m: Moment, since: real, key: QueryKey, answer: Links)
    requires AnsweredSince(log, since, key, answer)
    ensures AnsweredSince(log + [m], since, key, answer)
  {
    var n :| 0 <= n < |log| && log[n].time >= since && Answers(log[n].links, key, answer);
    assert (log + [m])[n] == log[n];
  }

  lemma StepKeepsRecent(s: Server, t: Step, d: real)
    requires Enabled(s, t) && Recent(s, d) && Timely(s, t, d)
    ensures Recent(After(s, t), d)
  {
    if t.Fetch? {
      FetchKeepsRecent(s, t, d);
    } else if t.Store? {
      StoreKeepsRecent(s, t, d);
    } else {
      RecentShrinks(s, After(s, t), d);
    }
  }

  /** Dropping entries and marking pending answers. */
  lemma RecentShrinks(s: Server, n: Server, d: real)
    requires Recent(s, d) && n.log == s.log && n.life == s.life && n.clock >= s.clock
    requires forall key :: key in n.entries ==> key in s.entries && n.entries[key] == s.entries[key]
    requires forall k :: k in n.pending ==>
               k in s.pending && n.pending[k].(overtaken := s.pending[k].overtaken) == s.pending[k]
    ensures Recent(n, d)
  {
    forall k | k in n.pending ensures WasAnswered(n, n.pending[k]) {
      assert WasAnswered(s, s.pending[k]);
    }
  }

  lemma StoreKeepsRecent(s: Server, t: Step, d: real)
    requires Enabled(s, t) && t.Store? && Recent(s, d) && Timely(s, t, d)
    ensures Recent(After(s, t), d)
  {
    var n, p := After(s, t), s.pending[t.task];
    assert WasAnswered(s, p);
    assert AnsweredSince(s.log, t.now - d, p.key, p.answer);
    forall k | k in n.pending ensures WasAnswered(n, n.pending[k]) {
      assert WasAnswered(s, s.pending[k]);
    }
  }

  lemma FetchKeepsRecent(s: Server, t: Step, d: real)
    requires Enabled(s, t) && t.Fetch? && Recent(s, d)
    ensures Recent(After(s, t), d)
  {
    var n, m := After(s, t), Moment(t.now, s.links);
    forall key | key in n.entries
      ensures AnsweredSince(n.log, n.entries[key].exp - n.life - d, key, n.entries[key].val)
    {
      LogGrows(s.log, m, s.entries[key].exp - s.life - d, key, s.entries[key].val);
    }
    forall k | k in n.pending ensures WasAnswered(n, n.pending[k]) {
      if k == t.task {
        assert n.log[|s.log|] == m;
      } else {
        assert WasAnswered(s, s.pending[k]);
      }
    }
  }

  ghost predicate TimelyRun(s: Server, steps: seq<Step>, d: real) {
    AllFine((r: Server, t: Step) => Enabled(r, t) && Timely(r, t, d), After, s, steps)
  }

  /** Over any run, whatever is invalidated or not, every answer from the cache was that of its
      query at some moment less than one lifetime and one fetch ago. */
  lemma StalenessIsBounded(life: real, steps: seq<Step>, d: real, key: QueryKey, now: real)
    requires TimelyRun(Started(life), steps, d) && now >= RunAll(After, Started(life), steps).clock
    ensures var s := RunAll(After, Started(life), steps);
            var hit := Lookup(s.entries, key, now);
            hit.Some? ==> AnsweredWithin(s.log, now - life - d, now, key, hit.value)
  {
    var fine := (r: Server, t: Step) => Enabled(r, t) && Timely(r, t, d);
    forall r, t | Recent(r, d) && r.life == life && fine(r, t)
      ensures Recent(After(r, t), d) && After(r, t).life == life
    {
      StepKeepsRecent(r, t, d);
    }
    RunKeeps((r: Server) => Recent(r, d) && r.life == life, fine, After, Started(life), steps);
    var s := RunAll(After, Started(life), steps);
    if Lookup(s.entries, key, now).Some? {
      RecentHit(s, d, key, now);
    }
  }

  /** At some moment after `since` and up to `now` the query gave this answer. */
  ghost predicate AnsweredWithin(log: seq<Moment>, since: real, now: real, key: QueryKey, answer: Links) {
    exists n :: 0 <= n < |log| && since < log[n].time <= now && Answers(log[n].links, key, answer)
  }

  lemma RecentHit(s: Server, d: real, key: QueryKey, now: real)
    requires Recent(s, d) && now >= s.clock && Lookup(s.entries, key, now).Some?
    ensures AnsweredWithin(s.log, now - s.life - d, now, key, s.entries[key].val)
  {
    var entry := s.entries[key];
    var n :| 0 <= n < |s.log| && s.log[n].time >= entry.exp - s.life - d && Answers(s.log[n].links, key, entry.val);
    assert s.log[n].time <= s.clock;
  }

  // ---------------------------------------------------------------- the repository

  /** Create fails on the unique index over companion, behavior and relationship; the others when
      they find no link, but for an update that sets no field. */
  predicate Succeeds(links: Links, op: LinkOp) {
    match op
    case Create(_, link) =>
      forall id :: id in links ==>
        links[id].companion != link.companion || links[id].behavior != link.behavior || links[id].rel != link.rel
    case Update(id, enabled, eligible, config) => id in links || (enabled == None && eligible == None && config == None)
    case Delete(id) => id in links
    case DeleteByKey(c, key, rel) =>
      exists id :: id in links && links[id].companion == c && links[id].key == key && links[id].rel == rel
  }

  /** The mutation row by row: exactly the new row is added, the given fields of one row take the
      given values, the one row or all rows of companion, key and relationship go; every other
      row and field stays. */
  ghost predicate RowsAfter(before: Links, op: LinkOp, after: Links) {
    match op
    case Create(i, link) => after.Keys == before.Keys + {i} && after[i] == link && KeepsRows(before, after, {i})
    case Update(i, enabled, eligible, config) =>
      && after.Keys == before.Keys && KeepsRows(before, after, {i})
      && (i in before ==>
            && after[i].enabled == (if enabled != None then enabled.value else before[i].enabled)
            && after[i].eligible == (if eligible != None then eligible.value else before[i].eligible)
            && after[i].config == (if config != None then config.value else before[i].config)
            && after[i].companion == before[i].companion && after[i].behavior == before[i].behavior
            && after[i].key == before[i].key && after[i].rel == before[i].rel && after[i].code == before[i].code)
    case Delete(i) => after.Keys == before.Keys - {i} && KeepsRows(before, after, {i})
    case DeleteByKey(c, key, rel) =>
      && after.Keys <= before.Keys && KeepsRows(before, after, {})
      && forall id :: id in before ==>
           (id in after <==> before[id].companion != c || before[id].key != key || before[id].rel != rel)
  }

  predicate KeepsRows(before: Links, after: Links, except: set<LinkId>) {
    forall id :: id in after && id !in except ==> id in before && after[id] == before[id]
  }

  /** The mutation is of a link of the key's companion and, if it has one, of its relationship. */
  predicate Reaches(links: Links, op: LinkOp, key: QueryKey) {
    match op
    case Create(_, link) => IsOf(link, key)
    case Update(i, enabled, eligible, config) =>
      (enabled != None || eligible != None || config != None) && i in links && IsOf(links[i], key)
    case Delete(i) => i in links && IsOf(links[i], key)
    case DeleteByKey(c, k, rel) =>
      exists id :: id in links && links[id].companion == c && links[id].key == k && links[id].rel == rel
                   && IsOf(links[id], key)
  }

  predicate IsOf(l: Link, key: QueryKey) {
    l.companion == key.companion && (key.rel == None || l.rel == key.rel)
  }

  lemma AppliedRows(links: Links, op: LinkOp)
    requires op.Create? ==> op.id !in links
    ensures RowsAfter(links, op, Applied(links, op))
    ensures !op.Create? ==> (Succeeds(links, op) <==> Touched(links, op).Some? || EmptyUpdate(op))
    ensures op.Create? ==> (Succeeds(links, op) <==> !Clashes(links, op.link))
  {
    if op.DeleteByKey? {
      assert forall id :: id in Hits(links, op) <==>
        id in links && links[id].companion == op.companion && links[id].key == op.key && links[id].rel == op.rel;
      assert (exists id :: id in Hits(links, op)) <==> Hits(links, op) != {};
    }
  }

  lemma TouchesKey(c: Uuid, rel: Option<Uuid>, key: QueryKey)
    ensures key in TouchedKeys(c, rel) <==> key.companion == c && (key.rel == None || key.rel == rel)
  {
    assert key == CacheKey(key.companion, key.rel, key.eligibleOnly);
  }

  /** The entries a mutation invalidates are exactly those it reaches. */
  lemma ReachedInvalidated(links: Links, entries: Entries, op: LinkOp)
    ensures forall key :: key in EntriesAfter(links, entries, op) <==> key in entries && !Reaches(links, op, key)
    ensures forall key :: key in EntriesAfter(links, entries, op) ==>
              EntriesAfter(links, entries, op)[key] == entries[key]
  {
    forall key | key in entries ensures key in EntriesAfter(links, entries, op) <==> !Reaches(links, op, key) {
      ReachesTouched(links, op, key);
    }
  }

  lemma ReachesTouched(links: Links, op: LinkOp, key: QueryKey)
    ensures Reaches(links, op, key) <==>
            Touched(links, op).Some? && key in TouchedKeys(Touched(links, op).value.0, Touched(links, op).value.1)
  {
    var touched := Touched(links, op);
    if touched.Some? {
      TouchesKey(touched.value.0, touched.value.1, key);
      if op.DeleteByKey? {
        var id :| id in Hits(links, op);
        assert links[id].companion == op.companion && links[id].key == op.key && links[id].rel == op.rel;
      }
    } else if op.DeleteByKey? {
      assert forall id :: id in links ==> id !in Hits(links, op);
    }
  }

  /** Each method runs between two awaits and is one step of the model above, so the object's
      calls may interleave in any way; the last two methods are whole calls that nothing
      interrupts. */
  class BehaviorRepository {
    var links: Links
    const cache: CacheManager<QueryKey, Links>
    const ttl: real
    ghost var server: Server

    constructor (ttl: real)
      ensures Valid() && fresh(cache) && this.ttl == ttl && server == Started(Lifetime(ttl))
    {
      this.ttl, links, server := ttl, map[], Started(Lifetime(ttl));
      cache := new CacheManager();
    }

    ghost predicate Valid()
      reads this, cache
    {
      server.links == links && server.entries == cache.entries && server.life == Lifetime(ttl)
    }

    /** The look into the cache. */
    method ReadCache(c: Uuid, rel: Option<Uuid>, eligibleOnly: bool, now: real) returns (hit: Option<Links>)
      requires Valid() && now >= server.clock
      modifies `server, cache
      ensures Valid() && server == After(old(server), Hit(CacheKey(c, rel, eligibleOnly), now))
      ensures hit == Lookup(old(cache.entries), CacheKey(c, rel, eligibleOnly), now)
    {
      hit := cache.Get(CacheKey(c, rel, eligibleOnly), now);
      server := After(server, Hit(CacheKey(c, rel, eligibleOnly), now));
    }

    /** A miss up to the answer of the database. */
    method BeginGet(task: Task, c: Uuid, rel: Option<Uuid>, eligibleOnly: bool, now: real) returns (answer: Links)
      requires Valid() && now >= server.clock && task !in server.pending && task !in server.owed
      modifies `server
      ensures Valid() && IsQuery(links, c, rel, eligibleOnly, answer)
      ensures server == After(old(server), Fetch(task, CacheKey(c, rel, eligibleOnly), answer, now))
    {
      answer := RunQuery(links, c, rel, eligibleOnly);
      server := After(server, Fetch(task, CacheKey(c, rel, eligibleOnly), answer, now));
    }

    /** Caching that answer. */
    method EndGet(task: Task, c: Uuid, rel: Option<Uuid>, eligibleOnly: bool, answer: Links, now: real)
      requires Valid() && now >= server.clock && task in server.pending
      requires server.pending[task].key == CacheKey(c, rel, eligibleOnly) && server.pending[task].answer == answer
      modifies `server, cache
      ensures Valid() && server == After(old(server), Store(task, now))
    {
      cache.Set(CacheKey(c, rel, eligibleOnly), answer, ttl, now);
      server := After(server, Store(task, now));
    }

    /** The statement of a create, update, enable, disable or delete of links; what is to be
        invalidated afterwards, if anything. */
    method BeginMutate(task: Task, op: LinkOp) returns (touched: Option<(Uuid, Option<Uuid>)>)
      requires Valid() && task !in server.pending && task !in server.owed && Allowed(links, op)
      modifies `links, `server
      ensures Valid() && touched == Touched(old(links), op) && server == After(old(server), Commit(task, op))
    {
      touched := Touched(links, op);
      server := After(server, Commit(task, op));
      links := Applied(links, op);
    }

    method InvalidateBehaviorCache(c: Uuid, rel: Option<Uuid>)
      modifies cache
      ensures cache.entries == Invalidated(old(cache.entries), c, rel)
    {
      cache.Delete(CacheKey(c, rel, true));
      cache.Delete(CacheKey(c, rel, false));
      if rel.Some? {
        cache.Delete(CacheKey(c, None, true));
        cache.Delete(CacheKey(c, None, false));
      }
      assert cache.entries == Invalidated(old(cache.entries), c, rel);
    }

    /** The rest of a mutation. */
    method EndMutate(task: Task, c: Uuid, rel: Option<Uuid>)
      requires Valid() && task in server.owed && server.owed[task].companion == c && server.owed[task].rel == rel
      modifies `server, cache
      ensures Valid() && server == After(old(server), Invalidate(task))
    {
      InvalidateBehaviorCache(c, rel);
      server := After(server, Invalidate(task));
    }

    /** `delete_behavior`, and the deletes of relationships and companions: links go by cascade
        and the cache is not told. */
    method DeleteParent(parent: Parent)
      requires Valid()
      modifies `links, `server
      ensures Valid() && server == After(old(server), Cascade(parent)) && cache.entries == old(cache.entries)
      ensures forall id :: id in links ==> id in old(links) && links[id] == old(links)[id]
      ensures parent.OfBehavior? ==>
                forall id :: id in old(links) ==> (id in links <==> old(links)[id].behavior != parent.behavior)
      ensures parent.OfRelationship? ==>
                forall id :: id in old(links) ==> (id in links <==> old(links)[id].rel != Some(parent.rel))
      ensures parent.OfCompanion? ==>
                forall id :: id in old(links) ==> (id in links <==> old(links)[id].companion != parent.companion)
      ensures forall key, answer :: Answers(old(links), key, answer) ==>
                (Answers(links, key, answer) <==> NoneDepends(answer, parent))
    {
      forall key: QueryKey, answer | Answers(links, key, answer)
        ensures Answers(Cascaded(links, parent), key, answer) <==> NoneDepends(answer, parent)
      {
        CascadeExact(links, parent, key.companion, key.rel, key.eligibleOnly, answer);
      }
      links := Cascaded(links, parent);
      server := After(server, Cascade(parent));
    }

    /** `update_behavior` of a name, a description or source code: the cache is not told either. */
    method UpdateBehavior(b: BehaviorId, code: string)
      requires Valid()
      modifies `links, `server
      ensures Valid() && server == After(old(server), Rewrite(b, code)) && cache.entries == old(cache.entries)
      ensures links.Keys == old(links).Keys
      ensures forall id :: id in links ==>
                links[id] == if old(links)[id].behavior == b then old(links)[id].(code := code) else old(links)[id]
      ensures forall key, answer :: Answers(old(links), key, answer) ==>
                (Answers(links, key, answer) <==> HasCode(answer, b, code))
    {
      forall key: QueryKey, answer | Answers(links, key, answer)
        ensures Answers(Rewritten(links, b, code), key, answer) <==> HasCode(answer, b, code)
      {
        RewriteExact(links, b, code, key.companion, key.rel, key.eligibleOnly, answer);
      }
      links := Rewritten(links, b, code);
      server := After(server, Rewrite(b, code));
    }

    /** `get_active_behaviors_for_companion`: the answer is that of the query now, or, from the
        cache, that of some moment less than one lifetime and one fetch ago; and if what is held
        for the key is current, so are the answer and what is held afterwards. */
    method GetActiveBehaviors(task: Task, c: Uuid, rel: Option<Uuid>, eligibleOnly: bool, useCache: bool, now: real,
                              ghost d: real) returns (answer: Links)
      requires Valid() && now >= server.clock && task !in server.pending && task !in server.owed
      requires Recent(server, d) && d >= 0.0
      modifies `server, cache
      ensures Valid() && Recent(server, d) && server.clock == (if useCache then now else old(server.clock))
      ensures server.pending == old(server.pending) && server.owed == old(server.owed)
      ensures IsQuery(links, c, rel, eligibleOnly, answer) ||
              (useCache && AnsweredWithin(server.log, now - Lifetime(ttl) - d, now,
                                          CacheKey(c, rel, eligibleOnly), answer))
      ensures forall key :: old(Fresh(server, key)) ==> Fresh(server, key)
      ensures old(Fresh(server, CacheKey(c, rel, eligibleOnly)) && !Owed(server, CacheKey(c, rel, eligibleOnly))) ==>
                IsQuery(links, c, rel, eligibleOnly, answer)
    {
      ghost var key, s := CacheKey(c, rel, eligibleOnly), server;
      if !useCache {
        answer := RunQuery(links, c, rel, eligibleOnly);
        return;
      }
      var hit := ReadCache(c, rel, eligibleOnly, now);
      KeepsAll(s, Hit(key, now), d);
      if hit.Some? {
        RecentHit(s, d, key, now);
        assert !Owed(s, key) ==> Exposed(s, key, hit.value);
        return hit.value;
      }
      ghost var s1 := server;
      answer := BeginGet(task, c, rel, eligibleOnly, now);
      KeepsAll(s1, Fetch(task, key, answer, now), d);
      ghost var s2 := server;
      EndGet(task, c, rel, eligibleOnly, answer, now);
      assert s2.log[|s1.log|] == Moment(now, links);
      KeepsAll(s2, Store(task, now), d);
      TakeBack(s.pending, task, s2.pending[task]);
    }

    /** The link mutations. Create fails on the unique index. */
    method Mutate(task: Task, op: LinkOp) returns (ok: bool)
      requires Valid() && task !in server.pending && task !in server.owed && (op.Create? ==> op.id !in links)
      modifies `links, `server, cache
      ensures Valid() && server.owed == old(server.owed) && server.pending.Keys == old(server.pending.Keys)
      ensures server.clock == old(server.clock) && server.log == old(server.log)
      ensures forall d :: old(Recent(server, d)) ==> Recent(server, d)
      ensures !ok ==> links == old(links) && cache.entries == old(cache.entries)
      ensures ok <==> Succeeds(old(links), op)
      ensures ok ==> RowsAfter(old(links), op, links)
      ensures forall key :: key in cache.entries <==> key in old(cache.entries) && !(ok && Reaches(old(links), op, key))
      ensures forall key :: key in cache.entries ==> cache.entries[key] == old(cache.entries)[key]
      ensures forall key :: old(Fresh(server, key)) && !BehindBack(old(links), op, key) ==> Fresh(server, key)
    {
      AppliedRows(links, op);
      if op.Create? && Clashes(links, op.link) {
        return false;
      }
      ghost var s := server;
      UntouchedUnchanged(links, op);
      ReachedInvalidated(links, cache.entries, op);
      var touched := BeginMutate(task, op);
      ok := touched.Some? || EmptyUpdate(op);
      MutateKeepsFresh(s, task, op);
      if touched.Some? {
        ghost var s1 := server;
        EndMutate(task, touched.value.0, touched.value.1);
        TakeBack(s.owed, task, s1.owed[task]);
      }
    }
  }

  /** A step that touches no links keeps everything, whatever key it is about. */
  lemma KeepsAll(s: Server, t: Step, d: real)
    requires Enabled(s, t) && (t.Hit? || t.Fetch? || (t.Store? && !s.pending[t.task].overtaken))
    ensures Recent(s, d) && Timely(s, t, d) ==> Recent(After(s, t), d)
    ensures forall key :: Fresh(s, key) ==> Fresh(After(s, t), key)
  {
    if Recent(s, d) && Timely(s, t, d) {
      StepKeepsRecent(s, t, d);
    }
    forall key | Fresh(s, key) ensures Fresh(After(s, t), key) {
      StepKeepsFresh(s, t, key);
    }
  }

  /** What a call adds and removes again. */
  lemma TakeBack<T>(held: map<Task, T>, task: Task, h: T)
    requires task !in held
    ensures held[task := h] - {task} == held
  {
  }

  lemma MutateKeepsFresh(s: Server, task: Task, op: LinkOp)
    requires Enabled(s, Commit(task, op))
    ensures var n := After(s, Commit(task, op));
            && (forall key :: Fresh(s, key) && !BehindBack(s.links, op, key) ==>
                  Fresh(n, key) && (Touched(s.links, op).Some? ==> Fresh(After(n, Invalidate(task)), key)))
            && (forall d :: Recent(s, d) ==>
                  Recent(n, d) && (Touched(s.links, op).Some? ==> Recent(After(n, Invalidate(task)), d)))
  {
    var n := After(s, Commit(task, op));
    forall key | Fresh(s, key) && !BehindBack(s.links, op, key)
      ensures Fresh(n, key) && (Touched(s.links, op).Some? ==> Fresh(After(n, Invalidate(task)), key))
    {
      StepKeepsFresh(s, Commit(task, op), key);
      if Touched(s.links, op).Some? {
        StepKeepsFresh(n, Invalidate(task), key);
      }
    }
    forall d | Recent(s, d)
      ensures Recent(n, d) && (Touched(s.links, op).Some? ==> Recent(After(n, Invalidate(task)), d))
    {
      StepKeepsRecent(s, Commit(task, op), d);
      if Touched(s.links, op).Some? {
        StepKeepsRecent(n, Invalidate(task), d);
      }
    }
  }
}
