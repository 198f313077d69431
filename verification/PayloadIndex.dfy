/** Typed payload fields and the per-index inverted postings: the first half of `payload.rs`. */
module Payloads {

  /** The derived order puts every keyword before every integer. */
  datatype Value = Keyword(text: string) | Int(n: int)

  type Fields = seq<(string, Value)>
  type Postings = map<string, map<Value, set<nat>>>

  datatype Index = Index(byField: Postings, byId: map<nat, Fields>)

  /** Strings compare by code point. */
  predicate TextLess(a: string, b: string) {
    if b == [] then false
    else if a == [] then true
    else a[0] < b[0] || (a[0] == b[0] && TextLess(a[1..], b[1..]))
  }

  predicate Less(a: Value, b: Value) {
    match (a, b)
    case (Keyword(s), Keyword(t)) => TextLess(s, t)
    case (Keyword(_), Int(_)) => true
    case (Int(_), Keyword(_)) => false
    case (Int(m), Int(n)) => m < n
  }

  lemma {:induction false} TextTotal(a: string, b: string)
    ensures TextLess(a, b) || a == b || TextLess(b, a)
    ensures !(TextLess(a, b) && TextLess(b, a))
  {
    if a != [] && b != [] {
      TextTotal(a[1..], b[1..]);
      assert a == [a[0]] + a[1..] && b == [b[0]] + b[1..];
    }
  }

  lemma {:induction false} TextStrict(a: string)
    ensures !TextLess(a, a)
  {
    if a != [] {
      TextStrict(a[1..]);
    }
  }

  /** The order is total and strict. */
  lemma LessTotal(a: Value, b: Value)
    ensures Less(a, b) || a == b || Less(b, a)
    ensures !(Less(a, b) && Less(b, a)) && !Less(a, a)
  {
    if a.Keyword? && b.Keyword? {
      TextTotal(a.text, b.text);
    }
    if a.Keyword? {
      TextStrict(a.text);
    }
  }

  /** The ids filed under a field and value. */
  function Post(postings: Postings, f: string, v: Value): set<nat> {
    if f in postings && v in postings[f] then postings[f][v] else {}
  }

  /** `id` carries value `v` for field `f`. */
  predicate Has(byId: map<nat, Fields>, id: nat, f: string, v: Value) {
    id in byId && (f, v) in byId[id]
  }

  /** No empty rows. */
  ghost predicate Tight(postings: Postings) {
    && (forall f :: f in postings ==> postings[f] != map[])
    && (forall f, v :: f in postings && v in postings[f] ==> postings[f][v] != {})
  }

  /** The postings say what the ids carry, and nothing is empty. */
  ghost predicate IndexOk(idx: Index) {
    && Tight(idx.byField) && (forall id :: id in idx.byId ==> idx.byId[id] != [])
    && forall f, v, id :: id in Post(idx.byField, f, v) <==> Has(idx.byId, id, f, v)
  }

  /** The ids determine the postings. */
  lemma IndexDetermined(a: Index, b: Index)
    requires IndexOk(a) && IndexOk(b) && a.byId == b.byId
    ensures a == b
  {
    forall f | f in a.byField ensures f in b.byField && a.byField[f] == b.byField[f] {
      RowDetermined(a, b, f);
    }
    forall f | f in b.byField ensures f in a.byField {
      RowDetermined(b, a, f);
    }
  }

  lemma RowDetermined(a: Index, b: Index, f: string)
    requires IndexOk(a) && IndexOk(b) && a.byId == b.byId && f in a.byField
    ensures f in b.byField && a.byField[f] == b.byField[f]
  {
    forall v, id ensures id in Post(a.byField, f, v) <==> id in Post(b.byField, f, v) {
    }
    forall v ensures Post(a.byField, f, v) == Post(b.byField, f, v) {
    }
    var v :| v in a.byField[f];
    var id :| id in a.byField[f][v];
    assert id in Post(b.byField, f, v);
    forall w ensures w in a.byField[f] <==> w in b.byField[f] {
      if w in a.byField[f] {
        var x :| x in a.byField[f][w];
        assert x in Post(b.byField, f, w);
      }
      if w in b.byField[f] {
        var x :| x in b.byField[f][w];
        assert x in Post(a.byField, f, w);
      }
    }
    forall w | w in a.byField[f] ensures a.byField[f][w] == b.byField[f][w] {
      assert Post(a.byField, f, w) == Post(b.byField, f, w);
    }
  }

  // ---- One posting more or less ----

  /** `entry(f).or_default().entry(v).or_default().insert(id)` */
  function Filed(p: Postings, f: string, v: Value, id: nat): (p': Postings) {
    var values := if f in p then p[f] else map[];
    p[f := values[v := Post(p, f, v) + {id}]]
  }

  lemma FiledPost(p: Postings, f: string, v: Value, id: nat)
    requires Tight(p)
    ensures Tight(Filed(p, f, v, id))
    ensures forall g, w :: Post(Filed(p, f, v, id), g, w) == Post(p, g, w) + if (g, w) == (f, v) then {id} else {}
  {
    var p' := Filed(p, f, v, id);
    assert v in p'[f];
  }

  /** `id` leaves a posting; an empty posting and then an empty field row go. */
  function Unfiled(p: Postings, f: string, v: Value, id: nat): Postings {
    if f !in p then p
    else
      var values := if v !in p[f] then p[f] else if p[f][v] - {id} == {} then p[f] - {v} else p[f][v := p[f][v] - {id}];
      if values == map[] then p - {f} else p[f := values]
  }

  lemma UnfiledPost(p: Postings, f: string, v: Value, id: nat)
    requires Tight(p)
    ensures Tight(Unfiled(p, f, v, id))
    ensures forall g, w :: Post(Unfiled(p, f, v, id), g, w) == Post(p, g, w) - if (g, w) == (f, v) then {id} else {}
  {
    if f in p {
      var values := if v !in p[f] then p[f] else if p[f][v] - {id} == {} then p[f] - {v} else p[f][v := p[f][v] - {id}];
      assert forall w :: w != v ==> (w in values <==> w in p[f]);
    }
  }

  /** The postings once the first `i` pairs of `fields` are filed for `id`, which had none. */
  ghost predicate FiledSome(p: Postings, p': Postings, fields: Fields, i: nat, id: nat)
    requires i <= |fields|
  {
    forall f, v :: Post(p', f, v) == Post(p, f, v) + if (f, v) in fields[..i] then {id} else {}
  }

  ghost predicate UnfiledSome(p: Postings, p': Postings, fields: Fields, i: nat, id: nat)
    requires i <= |fields|
  {
    forall f, v :: Post(p', f, v) == Post(p, f, v) - if (f, v) in fields[..i] then {id} else {}
  }

  lemma FiledMore(p: Postings, p': Postings, fields: Fields, i: nat, id: nat)
    requires i < |fields| && Tight(p') && FiledSome(p, p', fields, i, id)
    ensures var p2 := Filed(p', fields[i].0, fields[i].1, id); Tight(p2) && FiledSome(p, p2, fields, i + 1, id)
  {
    hide Filed, Tight;
    FiledPost(p', fields[i].0, fields[i].1, id);
    assert fields[..i + 1] == fields[..i] + [fields[i]];
    assert fields[i] == (fields[i].0, fields[i].1);
  }

  lemma UnfiledMore(p: Postings, p': Postings, fields: Fields, i: nat, id: nat)
    requires i < |fields| && Tight(p') && UnfiledSome(p, p', fields, i, id)
    ensures var p2 := Unfiled(p', fields[i].0, fields[i].1, id); Tight(p2) && UnfiledSome(p, p2, fields, i + 1, id)
  {
    hide Unfiled, Tight;
    UnfiledPost(p', fields[i].0, fields[i].1, id);
    assert fields[..i + 1] == fields[..i] + [fields[i]];
    assert fields[i] == (fields[i].0, fields[i].1);
  }

  class PayloadIndex {
    var byField: Postings
    var byId: map<nat, Fields>

    function View(): Index
      reads this
    {
      Index(byField, byId)
    }

    ghost predicate Valid()
      reads this
    {
      IndexOk(View())
    }

    constructor ()
      ensures Valid() && byId == map[]
    {
      byField, byId := map[], map[];
    }

    /** `remove`: every posting of `id` goes, and nothing else. */
    method Remove(id: nat)
      requires Valid()
      modifies this
      ensures Valid() && byId == old(byId) - {id}
    {
      if id !in byId {
        assert byId - {id} == byId;
        return;
      }
      var fields := byId[id];
      byId := byId - {id};
      ghost var was := byField;
      for i := 0 to |fields|
        invariant Tight(byField) && UnfiledSome(was, byField, fields, i, id) && byId == old(byId) - {id}
      {
        UnfiledMore(was, byField, fields, i, id);
        byField := Unfiled(byField, fields[i].0, fields[i].1, id);
      }
      assert fields[..|fields|] == fields;
    }

    /** `upsert`: the id carries exactly the new fields; with none it is no longer indexed. */
    method Upsert(id: nat, fields: Fields)
      requires Valid()
      modifies this
      ensures Valid() && byId == if fields == [] then old(byId) - {id} else old(byId)[id := fields]
    {
      Remove(id);
      ghost var was := byField;
      for i := 0 to |fields|
        invariant Tight(byField) && FiledSome(was, byField, fields, i, id) && byId == old(byId) - {id}
      {
        FiledMore(was, byField, fields, i, id);
        byField := Filed(byField, fields[i].0, fields[i].1, id);
      }
      assert fields[..|fields|] == fields;
      if fields != [] {
        byId := byId[id := fields];
        assert byId == old(byId)[id := fields];
      }
    }
  }
}
