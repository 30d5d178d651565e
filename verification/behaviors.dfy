/** Behavior links: companion-level defaults, relationship-level overrides, the ranked batch
    query, and the single lookup. */
module Behaviors {
  import opened Text

  type LinkId = nat
  type BehaviorId = nat

  type Uuid = nat

  /** A link joined with the key of its behavior and with `code`, the columns of the behavior that
      can be updated. Without a relationship it is the companion's default; with one it overrides
      the default there. */
  datatype Link = Link(companion: Uuid, behavior: BehaviorId, key: string, rel: Option<Uuid>,
                       enabled: bool, eligible: bool, config: string, code: string)

  type Links = map<LinkId, Link>

  /** At most one link for each companion, behavior key and relationship. */
  ghost predicate OneLinkEach(links: Links) {
    forall x, y :: x in links && y in links && SameSlot(links[x], links[y]) ==> x == y
  }

  predicate SameSlot(a: Link, b: Link) {
    a.companion == b.companion && a.key == b.key && a.rel == b.rel
  }

  /** The WHERE clause of the batch query. */
  predicate InScope(l: Link, c: Uuid, rel: Option<Uuid>, eligibleOnly: bool) {
    l.companion == c && l.enabled && (eligibleOnly ==> l.eligible) && (l.rel.None? || l.rel == rel)
  }

  function Scope(links: Links, c: Uuid, rel: Option<Uuid>, eligibleOnly: bool): Links {
    map id | id in links && InScope(links[id], c, rel, eligibleOnly) :: links[id]
  }

  /** An override ranks before a default of the same key. */
  predicate Outranks(a: Link, b: Link) {
    a.key == b.key && a.rel.Some? && b.rel.None?
  }

  predicate HasKey(rows: Links, key: string) {
    exists w :: w in rows && rows[w].key == key
  }

  predicate RowsFrom(rows: Links, scope: Links) {
    forall id :: id in rows ==> id in scope && rows[id] == scope[id]
  }

  predicate CoversKeys(rows: Links, scope: Links) {
    forall id :: id in scope ==> HasKey(rows, scope[id].key)
  }

  predicate KeysDistinct(rows: Links) {
    forall x, y :: x in rows && y in rows && rows[x].key == rows[y].key ==> x == y
  }

  predicate NoneOutranked(rows: Links, scope: Links) {
    forall w, id :: w in rows && id in scope ==> !Outranks(scope[id], rows[w])
  }

  /** `ROW_NUMBER() ... = 1`: one row for each key in scope, outranked by none; which of two
      equally ranked rows is unspecified. */
  predicate IsRanked(scope: Links, answer: Links) {
    RowsFrom(answer, scope) && CoversKeys(answer, scope) && KeysDistinct(answer) && NoneOutranked(answer, scope)
  }

  /** An answer of `get_active_behaviors_for_companion` without its cache. */
  ghost predicate IsQuery(links: Links, c: Uuid, rel: Option<Uuid>, eligibleOnly: bool, answer: Links) {
    var scope := Scope(links, c, rel, eligibleOnly);
    if rel.Some? then IsRanked(scope, answer) else answer == scope
  }

  /** Column by column: the link is one of the companion's, enabled, eligible if asked for, and a
      default or the relationship's override. */
  predicate Selected(links: Links, id: LinkId, c: Uuid, rel: Option<Uuid>, eligibleOnly: bool) {
    && id in links && links[id].companion == c && links[id].enabled == true
    && (eligibleOnly ==> links[id].eligible == true)
    && (links[id].rel == None || links[id].rel == rel)
  }

  /** For its key the answer has this link, an override if that one is. */
  predicate AnswersFor(answered: Link, l: Link) {
    answered.key == l.key && (l.rel != None ==> answered.rel != None)
  }

  predicate HasAnswer(answer: Links, l: Link) {
    exists w :: w in answer && AnswersFor(answer[w], l)
  }

  /** The answer holds selected links; without a relationship all of them, and with one exactly one
      for every key, the override where there is one. */
  ghost predicate IsSelection(links: Links, c: Uuid, rel: Option<Uuid>, eligibleOnly: bool, answer: Links) {
    && (forall id :: id in answer ==> Selected(links, id, c, rel, eligibleOnly) && answer[id] == links[id])
    && (rel == None ==> forall id :: Selected(links, id, c, rel, eligibleOnly) ==> id in answer)
    && (rel != None ==>
          && (forall x, y :: x in answer && y in answer && answer[x].key == answer[y].key ==> x == y)
          && (forall id :: Selected(links, id, c, rel, eligibleOnly) ==>
                HasAnswer(answer, links[id])))
  }

  lemma QuerySelects(links: Links, c: Uuid, rel: Option<Uuid>, eligibleOnly: bool, answer: Links)
    ensures IsQuery(links, c, rel, eligibleOnly, answer) <==> IsSelection(links, c, rel, eligibleOnly, answer)
  {
    var scope := Scope(links, c, rel, eligibleOnly);
    forall id ensures id in scope <==> Selected(links, id, c, rel, eligibleOnly) {
    }
    if rel.None? {
      if IsSelection(links, c, rel, eligibleOnly, answer) {
        assert answer.Keys == scope.Keys;
      }
    } else {
      if IsRanked(scope, answer) {
        forall id | id in scope
          ensures HasAnswer(answer, scope[id])
        {
          assert HasKey(answer, scope[id].key);
          var w :| w in answer && answer[w].key == scope[id].key;
          assert !Outranks(scope[id], answer[w]);
        }
      }
      if IsSelection(links, c, rel, eligibleOnly, answer) {
        SelectionRanked(links, c, rel, eligibleOnly, answer);
      }
    }
  }

  lemma SelectionRanked(links: Links, c: Uuid, rel: Option<Uuid>, eligibleOnly: bool, answer: Links)
    requires rel.Some? && IsSelection(links, c, rel, eligibleOnly, answer)
    ensures IsRanked(Scope(links, c, rel, eligibleOnly), answer)
  {
    var scope := Scope(links, c, rel, eligibleOnly);
    assert forall id :: id in scope <==> Selected(links, id, c, rel, eligibleOnly);
    assert RowsFrom(answer, scope) && KeysDistinct(answer);
    forall id | id in scope ensures HasAnswer(answer, scope[id]) {
      assert Selected(links, id, c, rel, eligibleOnly);
    }
    AnsweredRanked(scope, answer);
  }

  lemma AnsweredRanked(scope: Links, answer: Links)
    requires RowsFrom(answer, scope) && KeysDistinct(answer)
    requires forall id :: id in scope ==> HasAnswer(answer, scope[id])
    ensures IsRanked(scope, answer)
  {
    forall id | id in scope
      ensures HasKey(answer, scope[id].key) && forall w :: w in answer ==> !Outranks(scope[id], answer[w])
    {
      var v :| v in answer && AnswersFor(answer[v], scope[id]);
      assert answer[v].key == scope[id].key;
    }
  }

  /** The batch query: keeps the best row seen so far for every key. */
  method RunQuery(links: Links, c: Uuid, rel: Option<Uuid>, eligibleOnly: bool) returns (answer: Links)
    ensures IsQuery(links, c, rel, eligibleOnly, answer) && IsSelection(links, c, rel, eligibleOnly, answer)
  {
    var scope := Scope(links, c, rel, eligibleOnly);
    if rel.None? {
      QuerySelects(links, c, rel, eligibleOnly, scope);
      return scope;
    }
    answer := map[];
    var rest := scope.Keys;
    while rest != {}
      invariant rest <= scope.Keys && IsRanked(scope - rest, answer)
      decreases rest
    {
      var id :| id in rest;
      answer := Improve(scope - rest, answer, id, scope[id]);
      assert scope - (rest - {id}) == (scope - rest)[id := scope[id]];
      rest := rest - {id};
    }
    assert scope - {} == scope;
    QuerySelects(links, c, rel, eligibleOnly, answer);
  }

  /** Adds one row to a ranked answer: it comes in unless a row of its key is there that it
      does not outrank. */
  method Improve(seen: Links, answer: Links, id: LinkId, l: Link) returns (better: Links)
    requires IsRanked(seen, answer) && id !in seen
    ensures IsRanked(seen[id := l], better)
  {
    var rivals := set w | w in answer && answer[w].key == l.key;
    if rivals == {} {
      assert forall w :: w in answer ==> w !in rivals;
      AddRanked(seen, answer, id, l);
      better := answer[id := l];
    } else {
      var w :| w in rivals;
      if Outranks(l, answer[w]) {
        ReplaceRanked(seen, answer, id, l, w);
        better := (answer - {w})[id := l];
      } else {
        KeepRanked(seen, answer, id, l, w);
        better := answer;
      }
    }
  }

  lemma AddRanked(seen: Links, answer: Links, id: LinkId, l: Link)
    requires IsRanked(seen, answer) && id !in seen && !HasKey(answer, l.key)
    ensures IsRanked(seen[id := l], answer[id := l])
  {
    NoRival(seen, answer, l.key);
    Covered(seen, answer, answer[id := l], id, l);
  }

  lemma ReplaceRanked(seen: Links, answer: Links, id: LinkId, l: Link, w: LinkId)
    requires IsRanked(seen, answer) && id !in seen && w in answer && answer[w].key == l.key && Outranks(l, answer[w])
    ensures IsRanked(seen[id := l], (answer - {w})[id := l])
  {
    Covered(seen, answer, (answer - {w})[id := l], id, l);
    ReplaceDistinct(answer, id, l, w);
  }

  lemma ReplaceDistinct(answer: Links, id: LinkId, l: Link, w: LinkId)
    requires KeysDistinct(answer) && w in answer && answer[w].key == l.key
    ensures KeysDistinct((answer - {w})[id := l])
  {
  }

  lemma KeepRanked(seen: Links, answer: Links, id: LinkId, l: Link, w: LinkId)
    requires IsRanked(seen, answer) && id !in seen && w in answer && answer[w].key == l.key && !Outranks(l, answer[w])
    ensures IsRanked(seen[id := l], answer)
  {
    assert HasKey(answer, l.key);
  }

  lemma NoRival(seen: Links, answer: Links, key: string)
    requires IsRanked(seen, answer) && !HasKey(answer, key)
    ensures !HasKey(seen, key)
  {
  }

  lemma Covered(seen: Links, answer: Links, better: Links, id: LinkId, l: Link)
    requires IsRanked(seen, answer) && id in better && better[id] == l
    requires forall w :: w in answer && answer[w].key != l.key ==> w in better && better[w] == answer[w]
    ensures CoversKeys(better, seen[id := l])
  {
    var more := seen[id := l];
    forall x | x in more ensures HasKey(better, more[x].key) {
      if more[x].key == l.key {
        assert better[id].key == l.key;
      } else {
        assert HasKey(answer, seen[x].key);
        var w :| w in answer && answer[w].key == seen[x].key;
        assert better[w].key == more[x].key;
      }
    }
  }

  predicate IsLinkFor(l: Link, key: string, c: Uuid, rel: Option<Uuid>) {
    l.key == key && l.companion == c && l.rel == rel && l.enabled
  }

  function LinksFor(links: Links, key: string, c: Uuid, rel: Option<Uuid>): set<LinkId> {
    set id | id in links && IsLinkFor(links[id], key, c, rel)
  }

  /** The answers `get_behavior_for_companion` may give: an enabled override, else an enabled
      default, else nothing. */
  predicate IsLookup(links: Links, key: string, c: Uuid, rel: Option<Uuid>, found: Option<LinkId>) {
    var overrides, defaults := LinksFor(links, key, c, rel), LinksFor(links, key, c, None);
    match found
    case Some(id) => id in overrides || (overrides == {} && id in defaults)
    case None => overrides == {} && defaults == {}
  }

  method GetBehaviorForCompanion(links: Links, key: string, c: Uuid, rel: Option<Uuid>) returns (found: Option<LinkId>)
    ensures IsLookup(links, key, c, rel, found)
    ensures found.Some? ==>
              && found.value in links && links[found.value].key == key && links[found.value].companion == c
              && links[found.value].enabled == true && (links[found.value].rel == None || links[found.value].rel == rel)
    ensures forall id :: id in links && links[id].key == key && links[id].companion == c && links[id].enabled
                         && (links[id].rel == None || links[id].rel == rel) ==>
              found.Some? && (links[id].rel != None ==> links[found.value].rel != None)
  {
    assert forall id :: id in links && IsLinkFor(links[id], key, c, rel) ==> id in LinksFor(links, key, c, rel);
    assert forall id :: id in links && IsLinkFor(links[id], key, c, None) ==> id in LinksFor(links, key, c, None);
    if rel.Some? {
      var overrides := LinksFor(links, key, c, rel);
      if overrides != {} {
        var id :| id in overrides;
        return Some(id);
      }
    }
    var defaults := LinksFor(links, key, c, None);
    if defaults == {} {
      return None;
    }
    var id :| id in defaults;
    found := Some(id);
  }

  lemma OneLinkFor(links: Links, key: string, c: Uuid, rel: Option<Uuid>)
    requires OneLinkEach(links)
    ensures forall x, y :: x in LinksFor(links, key, c, rel) && y in LinksFor(links, key, c, rel) ==> x == y
  {
    forall x, y | x in LinksFor(links, key, c, rel) && y in LinksFor(links, key, c, rel) ensures x == y {
      assert SameSlot(links[x], links[y]);
    }
  }

  /** The unfiltered batch query has link `id` for a key exactly when the single lookup returns
      it: both prefer an enabled override and fall back past a disabled one. */
  lemma BatchAgreesWithLookup(links: Links, c: Uuid, rel: Option<Uuid>, answer: Links, key: string,
                              found: Option<LinkId>, id: LinkId)
    requires OneLinkEach(links) && IsQuery(links, c, rel, false, answer) && IsLookup(links, key, c, rel, found)
    ensures id in answer && answer[id].key == key <==> found == Some(id)
  {
    var scope := Scope(links, c, rel, false);
    var overrides, defaults := LinksFor(links, key, c, rel), LinksFor(links, key, c, None);
    assert forall x :: x in scope && scope[x].key == key <==> x in overrides || x in defaults;
    OneLinkFor(links, key, c, rel);
    OneLinkFor(links, key, c, None);
    if found.Some? && rel.Some? {
      assert HasKey(answer, scope[found.value].key);
    }
  }

  /** An eligible default hidden behind an enabled override that is not eligible. */
  ghost predicate Shadowed(links: Links, c: Uuid, rel: Option<Uuid>, id: LinkId) {
    && id in Scope(links, c, rel, true)
    && exists o :: o in Scope(links, c, rel, false) && Outranks(links[o], links[id]) && !links[o].eligible
  }

  /** Filtering on eligibility before ranking gives the eligible part of the batch exactly when
      no eligible default is shadowed; a shadowed one reappears in the filtered query. */
  lemma FilterCommutesWithRanking(links: Links, c: Uuid, rel: Option<Uuid>, all: Links, some: Links)
    requires OneLinkEach(links) && IsQuery(links, c, rel, false, all) && IsQuery(links, c, rel, true, some)
    ensures (forall id :: id in some <==> id in all && all[id].eligible) <==>
            (forall id :: !Shadowed(links, c, rel, id))
  {
    forall id | id in Scope(links, c, rel, true)
      ensures id in some <==> (id in all || Shadowed(links, c, rel, id))
      ensures Shadowed(links, c, rel, id) ==> id !in all
    {
      FilteredMember(links, c, rel, all, some, id);
    }
  }

  lemma FilteredMember(links: Links, c: Uuid, rel: Option<Uuid>, all: Links, some: Links, id: LinkId)
    requires OneLinkEach(links) && IsQuery(links, c, rel, false, all) && IsQuery(links, c, rel, true, some)
    requires id in Scope(links, c, rel, true)
    ensures id in some <==> (id in all || Shadowed(links, c, rel, id))
    ensures Shadowed(links, c, rel, id) ==> id !in all
  {
    var wide, narrow := Scope(links, c, rel, false), Scope(links, c, rel, true);
    var key := links[id].key;
    assert id in wide && wide[id].key == key && narrow[id].key == key;
    if Shadowed(links, c, rel, id) {
      var o :| o in wide && Outranks(links[o], links[id]) && !links[o].eligible;
      assert id !in all;
      if rel.Some? {
        assert HasKey(some, narrow[id].key);
        var v :| v in some && some[v].key == key;
        assert v != o;
        MemberOfSlot(links, c, rel, id, o, v);
      }
    } else if rel.Some? {
      assert HasKey(all, wide[id].key) && HasKey(some, narrow[id].key);
      var w :| w in all && all[w].key == key;
      var v :| v in some && some[v].key == key;
      assert w in narrow || !Outranks(links[w], links[id]);
      MemberOfSlot(links, c, rel, id, w, v);
    }
  }

  lemma MemberOfSlot(links: Links, c: Uuid, rel: Option<Uuid>, id: LinkId, w: LinkId, v: LinkId)
    requires OneLinkEach(links) && rel.Some?
    requires id in Scope(links, c, rel, true) && w in Scope(links, c, rel, false) && v in Scope(links, c, rel, true)
    requires links[w].key == links[v].key == links[id].key
    ensures SameSlot(links[w], links[id]) || SameSlot(links[v], links[id]) || SameSlot(links[v], links[w])
    ensures SameSlot(links[w], links[id]) <==> w == id
    ensures SameSlot(links[v], links[id]) <==> v == id
    ensures SameSlot(links[v], links[w]) <==> v == w
  {
  }
}
