/**
  The variables of a service: a list of typed entries, and a store to look in next when
  the list has no answer.  Entries are kept in the order they were added, which is the
  order in which they are found.
 */
module DataStore {

  import opened Basics

  const STRING := 1
  const SET := 3
  const INT := 6
  const ALIAS := 7
  const VARIABLE := 50      // added to a kind whose entries carry a variable name

  /** s_entry: a kind of variable; an alias stands for another one. */
  datatype Type = Type(id: nat, kind: int, alias: Option<Type>)

  datatype Value = Unset | Number(i: int) | Text(s: string)

  /** ALIAS_WALK. */
  function Resolve(t: Type): (r: Type)
    ensures !(r.kind == ALIAS && r.alias.Some?)
  {
    if t.kind == ALIAS && t.alias.Some? then Resolve(t.alias.value) else t
  }

  method AliasWalk(t: Type) returns (r: Type)
    ensures r == Resolve(t)
  {
    r := t;
    while r.kind == ALIAS && r.alias.Some?
      invariant Resolve(r) == Resolve(t)
      decreases r
    {
      r := r.alias.value;
    }
  }

  predicate IsKind(t: Type, kind: int) {
    t.kind == kind || t.kind == kind + VARIABLE
  }

  /** s_data. */
  class Entry {
    const typ: Type
    const vn: Option<string>
    var value: Value

    constructor (typ: Type, vn: Option<string>, value: Value)
      ensures this.typ == typ && this.vn == vn && this.value == value
    {
      this.typ, this.vn, this.value := typ, vn, value;
    }
  }

  /** Asked for a type (or any) and a variable name (or any); an entry without a name
      answers to every name. */
  predicate Matches(e: Entry, t: Option<Type>, vn: Option<string>) {
    && (t.None? || e.typ == t.value)
    && (e.vn.None? || vn.None? || e.vn == vn)
  }

  /** An entry answers to its own type and name, and to its type without a name; one without a
      name answers to every name; a question without a type is one for the entry's own. */
  lemma AnswersToOwn(e: Entry, vn: Option<string>)
    ensures Matches(e, Some(e.typ), e.vn) && Matches(e, Some(e.typ), None)
    ensures e.vn.None? ==> Matches(e, Some(e.typ), vn)
    ensures Matches(e, None, vn) <==> Matches(e, Some(e.typ), vn)
  {
  }

  /** And to nothing else: no entry answers to two types, and none with a name to two names. */
  lemma AnswersApart(e: Entry, t: Type, u: Type, a: string, b: string)
    ensures Matches(e, Some(t), Some(a)) && Matches(e, Some(u), Some(b)) ==> t == u && (a == b || e.vn.None?)
  {
  }

  // ------------------------------------------------------------ sequences of entries

  /** The first match from `i` on. */
  function First(all: seq<Entry>, t: Option<Type>, vn: Option<string>, i: nat): (k: nat)
    requires i <= |all|
    ensures i <= k <= |all|
    ensures forall j | i <= j < k :: !Matches(all[j], t, vn)
    ensures k < |all| ==> Matches(all[k], t, vn)
    decreases |all| - i
  {
    if i == |all| || Matches(all[i], t, vn) then i else First(all, t, vn, i + 1)
  }

  function EntryAt(all: seq<Entry>, k: nat): (e: Entry?) {
    if k < |all| then all[k] else null
  }

  function Matching(all: seq<Entry>, t: Option<Type>, vn: Option<string>): (r: seq<Entry>) {
    if all == [] then []
    else if Matches(all[0], t, vn) then [all[0]] + Matching(all[1..], t, vn)
    else Matching(all[1..], t, vn)
  }

  function Others(all: seq<Entry>, t: Option<Type>, vn: Option<string>): (r: seq<Entry>) {
    if all == [] then []
    else if Matches(all[0], t, vn) then Others(all[1..], t, vn)
    else [all[0]] + Others(all[1..], t, vn)
  }

  lemma {:induction false} FirstConcat(a: seq<Entry>, b: seq<Entry>, t: Option<Type>, vn: Option<string>, i: nat)
    requires i <= |a| + |b|
    ensures First(a + b, t, vn, i) ==
            if i <= |a| && First(a, t, vn, i) < |a| then First(a, t, vn, i)
            else |a| + First(b, t, vn, if i <= |a| then 0 else i - |a|)
    decreases |a| + |b| - i
  {
    if i < |a| + |b| {
      assert (a + b)[i] == if i < |a| then a[i] else b[i - |a|];
      if !Matches((a + b)[i], t, vn) { FirstConcat(a, b, t, vn, i + 1); }
    }
  }

  lemma {:induction false} MatchingFrom(all: seq<Entry>, t: Option<Type>, vn: Option<string>, i: nat)
    requires i <= |all|
    ensures var k := First(all, t, vn, i);
            Matching(all[i..], t, vn) == if k < |all| then [all[k]] + Matching(all[k + 1..], t, vn) else []
    decreases |all| - i
  {
    if i < |all| {
      assert all[i..][0] == all[i] && all[i..][1..] == all[i + 1..];
      if !Matches(all[i], t, vn) { MatchingFrom(all, t, vn, i + 1); }
    }
  }

  // ------------------------------------------------------------------------- the chain

  /** data_head: its own entries, and the store to look in after them. */
  class Store {
    var items: seq<Entry>
    var res: Store?

    constructor (res: Store?) ensures items == [] && this.res == res { items := []; this.res := res; }
  }

  ghost function All(chain: seq<Store>): (r: seq<Entry>)
    reads chain
  {
    if chain == [] then [] else chain[0].items + All(chain[1..])
  }

  /** `chain` is the store, its successor, and so on to the last. */
  ghost predicate Chained(d: Store, chain: seq<Store>)
    reads chain
  {
    && |chain| > 0 && chain[0] == d
    && if |chain| == 1 then d.res == null
       else d.res == chain[1] && d !in chain[1..] && Chained(chain[1], chain[1..])
  }

  lemma DistinctTail(a: seq<Entry>, b: seq<Entry>)
    requires Distinct(a + b)
    ensures Distinct(b)
  {
    forall i, j | 0 <= i < j < |b| ensures b[i] != b[j] {
      assert (a + b)[|a| + i] == b[i] && (a + b)[|a| + j] == b[j];
    }
  }

  /** The walk over a store's own entries.  Everything up to `last` is skipped; `seek` is
      what it was still looking for at the end. */
  method SearchOwn(t: Option<Type>, vn: Option<string>, items: seq<Entry>, last: Entry?, ghost p: int)
    returns (r: Entry?, seek: Entry?)
    requires if p == -1 then last == null else p >= 0 && last != null
    requires forall i | 0 <= i < |items| :: items[i] == last <==> i == p
    ensures p < |items| ==> seek == null && r == EntryAt(items, First(items, t, vn, p + 1))
    ensures p >= |items| ==> seek == last && r == null
  {
    seek := last;
    var place := 0;
    while place < |items|
      invariant 0 <= place <= |items|
      invariant if p < place then seek == null && First(items, t, vn, p + 1) == First(items, t, vn, place)
                else seek == last
    {
      var current := items[place];
      if seek != null && current != seek {
        place := place + 1;
        continue;
      }
      if seek == current {
        seek := null;
        place := place + 1;
        continue;
      }
      if Matches(current, t, vn) { return current, seek; }
      place := place + 1;
    }
    return null, seek;
  }

  /** What the whole chain answers, from what the own entries and the rest answer. */
  lemma LookFurther(mine: seq<Entry>, rest: seq<Entry>, t: Option<Type>, vn: Option<string>, p: int)
    requires Distinct(mine + rest) && -1 <= p < |mine + rest|
    ensures Distinct(rest)
    ensures forall i | 0 <= i < |mine| :: p >= 0 && mine[i] == (mine + rest)[p] <==> i == p
    ensures EntryAt(mine + rest, First(mine + rest, t, vn, p + 1)) ==
            if p < |mine| && First(mine, t, vn, p + 1) < |mine| then EntryAt(mine, First(mine, t, vn, p + 1))
            else EntryAt(rest, First(rest, t, vn, if p < |mine| then 0 else p + 1 - |mine|))
  {
    FirstConcat(mine, rest, t, vn, p + 1);
    DistinctTail(mine, rest);
    assert forall i | 0 <= i < |mine| :: (mine + rest)[i] == mine[i];
  }

  /** initng_data_get_next_var: the first match after `last` (at `p`), or the first of all
      when there is no `last` (`p` is -1). */
  method GetNextVar(t: Option<Type>, vn: Option<string>, d: Store, last: Entry?, ghost chain: seq<Store>, ghost p: int)
    returns (r: Entry?)
    requires Chained(d, chain) && Distinct(All(chain))
    requires if p == -1 then last == null else 0 <= p < |All(chain)| && All(chain)[p] == last
    ensures r == EntryAt(All(chain), First(All(chain), ResolveOpt(t), vn, p + 1))
    decreases |chain|
  {
    var typ := ResolveOpt(t);
    ghost var mine, rest := d.items, All(chain[1..]);
    LookFurther(mine, rest, typ, vn, p);
    var seek: Entry?;
    r, seek := SearchOwn(typ, vn, d.items, last, p);
    if r != null { return; }
    if d.res != null {
      assert chain[1..][0] == d.res;
      r := GetNextVar(typ, vn, d.res, seek, chain[1..], if p < |mine| then -1 else p - |mine|);
    } else {
      assert rest == [];
    }
  }

  function ResolveOpt(t: Option<Type>): (r: Option<Type>) {
    if t.Some? then Some(Resolve(t.value)) else None
  }

  /** Where a walk stands after the entry at `p`: `out` are the matches so far. */
  predicate Collected(all: seq<Entry>, t: Option<Type>, vn: Option<string>, p: int, out: seq<Entry>)
    requires -1 <= p < |all|
  {
    out + Matching(all[p + 1..], t, vn) == Matching(all, t, vn)
  }

  lemma CollectStep(all: seq<Entry>, t: Option<Type>, vn: Option<string>, p: int, out: seq<Entry>)
    requires -1 <= p < |all| && Collected(all, t, vn, p, out)
    ensures var k := First(all, t, vn, p + 1);
            if k < |all| then Collected(all, t, vn, k, out + [all[k]]) else out == Matching(all, t, vn)
  {
    MatchingFrom(all, t, vn, p + 1);
    var k := First(all, t, vn, p + 1);
    if k < |all| { Assoc(out, [all[k]], Matching(all[k + 1..], t, vn)); }
    else { assert out + [] == out; }
  }

  /** The loop every walker of the variables is written as: it comes to each matching
      entry of the whole chain once, in order, and to nothing else. */
  method Collect(t: Option<Type>, vn: Option<string>, d: Store, ghost chain: seq<Store>) returns (out: seq<Entry>)
    requires Chained(d, chain) && Distinct(All(chain))
    ensures out == Matching(All(chain), ResolveOpt(t), vn)
  {
    ghost var typ := ResolveOpt(t);
    ghost var p := -1;
    out := [];
    assert All(chain)[0..] == All(chain);
    var current := GetNextVar(t, vn, d, null, chain, -1);
    while current != null
      invariant -1 <= p < |All(chain)| && Collected(All(chain), typ, vn, p, out)
      invariant current == EntryAt(All(chain), First(All(chain), typ, vn, p + 1))
      decreases |All(chain)| - p
    {
      CollectStep(All(chain), typ, vn, p, out);
      p := First(All(chain), typ, vn, p + 1);
      out := out + [current];
      current := GetNextVar(t, vn, d, current, chain, p);
    }
    CollectStep(All(chain), typ, vn, p, out);
  }

  // -------------------------------------------------------------------------- removing

  function Minus(s: seq<Entry>, e: Entry): (r: seq<Entry>) {
    if s == [] then [] else if s[0] == e then Minus(s[1..], e) else [s[0]] + Minus(s[1..], e)
  }

  lemma {:induction false} MinusConcat(a: seq<Entry>, b: seq<Entry>, e: Entry)
    ensures Minus(a + b, e) == Minus(a, e) + Minus(b, e)
    decreases |a|
  {
    if a == [] {
      assert a + b == b;
    } else {
      assert (a + b)[1..] == a[1..] + b;
      MinusConcat(a[1..], b, e);
    }
  }

  lemma {:induction false} MinusMember(s: seq<Entry>, e: Entry, x: Entry)
    ensures x in Minus(s, e) <==> x in s && x != e
    decreases |s|
  {
    if s != [] {
      MinusMember(s[1..], e, x);
      assert s == [s[0]] + s[1..];
    }
  }

  lemma {:induction false} MinusKeeps(s: seq<Entry>, e: Entry)
    requires Distinct(s)
    ensures Distinct(Minus(s, e)) && |Minus(s, e)| == |s| - (if e in s then 1 else 0)
    ensures e !in s ==> Minus(s, e) == s
    decreases |s|
  {
    if s != [] {
      var rest := Minus(s[1..], e);
      assert s == [s[0]] + s[1..];
      DistinctTail([s[0]], s[1..]);
      MinusKeeps(s[1..], e);
      MinusMember(s[1..], e, s[0]);
      assert s[0] !in rest;
      forall i, j | 0 <= i < j < |[s[0]] + rest| ensures ([s[0]] + rest)[i] != ([s[0]] + rest)[j] {
        assert ([s[0]] + rest)[j] == rest[j - 1];
      }
    }
  }

  lemma {:induction false} OthersMinus(s: seq<Entry>, e: Entry, t: Option<Type>, vn: Option<string>)
    requires Matches(e, t, vn)
    ensures Others(Minus(s, e), t, vn) == Others(s, t, vn)
    decreases |s|
  {
    if s != [] { OthersMinus(s[1..], e, t, vn); }
  }

  lemma {:induction false} NoneMatch(s: seq<Entry>, t: Option<Type>, vn: Option<string>)
    requires forall i | 0 <= i < |s| :: !Matches(s[i], t, vn)
    ensures Others(s, t, vn) == s
    decreases |s|
  {
    if s != [] {
      NoneMatch(s[1..], t, vn);
      assert s == [s[0]] + s[1..];
    }
  }

  /** Taking an entry off whatever list of the chain it is on. */
  method Unlink(e: Entry, d: Store, ghost chain: seq<Store>)
    requires Chained(d, chain) && Distinct(All(chain))
    modifies chain
    ensures Chained(d, chain) && All(chain) == Minus(old(All(chain)), e)
    ensures forall i | 0 <= i < |chain| ::
              chain[i].items == Minus(old(chain[i].items), e) && chain[i].res == old(chain[i].res)
    decreases |chain|
  {
    ghost var mine, rest := d.items, All(chain[1..]);
    MinusConcat(mine, rest, e);
    DistinctTail(mine, rest);
    assert Distinct(mine) by { assert forall i | 0 <= i < |mine| :: (mine + rest)[i] == mine[i]; }
    MinusKeeps(mine, e);
    if d.res != null {
      assert chain[1..][0] == d.res;
      assert forall i | 1 <= i < |chain| :: chain[i] == chain[1..][i - 1];
      Unlink(e, d.res, chain[1..]);
    } else {
      assert rest == [];
    }
    d.items := Minus(d.items, e);
  }

  /** initng_data_remove_var: every match along the whole chain goes, and each store keeps
      the rest of its entries in order. */
  method RemoveVar(t: Type, vn: Option<string>, d: Store, ghost chain: seq<Store>)
    requires Chained(d, chain) && Distinct(All(chain))
    modifies chain
    ensures Chained(d, chain)
    ensures forall i | 0 <= i < |chain| ::
              chain[i].items == Others(old(chain[i].items), Some(Resolve(t)), vn) && chain[i].res == old(chain[i].res)
  {
    ghost var typ := Some(Resolve(t));
    var current := GetNextVar(Some(t), vn, d, null, chain, -1);
    while current != null
      invariant Chained(d, chain) && Distinct(All(chain))
      invariant current == EntryAt(All(chain), First(All(chain), typ, vn, 0))
      invariant forall i | 0 <= i < |chain| ::
                  && Others(chain[i].items, typ, vn) == Others(old(chain[i].items), typ, vn)
                  && chain[i].res == old(chain[i].res)
      decreases |All(chain)|
    {
      MinusKeeps(All(chain), current);
      forall i | 0 <= i < |chain|
        ensures Others(Minus(chain[i].items, current), typ, vn) == Others(old(chain[i].items), typ, vn)
      {
        OthersMinus(chain[i].items, current, typ, vn);
      }
      Unlink(current, d, chain);
      current := GetNextVar(Some(t), vn, d, null, chain, -1);
    }
    forall i | 0 <= i < |chain| ensures chain[i].items == Others(chain[i].items, typ, vn) {
      OwnAreAll(chain, i);
      NoneMatch(chain[i].items, typ, vn);
    }
  }

  lemma {:induction false} OwnAreAll(chain: seq<Store>, i: nat)
    requires i < |chain|
    ensures forall k | 0 <= k < |chain[i].items| :: chain[i].items[k] in All(chain)
    decreases i
  {
    if i > 0 {
      OwnAreAll(chain[1..], i - 1);
      assert chain[i] == chain[1..][i - 1];
    }
  }

  // ------------------------------------------------------------------ setting and getting

  /** What a store answers for a type and a name. */
  ghost function Lookup(chain: seq<Store>, t: Type, vn: Option<string>): (e: Entry?)
    reads chain
  {
    EntryAt(All(chain), First(All(chain), Some(Resolve(t)), vn, 0))
  }

  /** A set is refused for an entry type of another kind, and without the variable name
      that the type needs. */
  predicate Accepts(t: Option<Type>, vn: Option<string>, kind: int) {
    t.Some? && (vn.Some? || Resolve(t.value).kind < VARIABLE) && IsKind(Resolve(t.value), kind)
  }

  /** Which sets are accepted: those of a type of that kind, and those of the kind with names,
      which is fifty above it, if there is a name. */
  lemma AcceptedKinds(t: Type, vn: Option<string>, kind: int)
    requires 0 <= kind < 50
    ensures Accepts(Some(t), vn, kind) <==>
            Resolve(t).kind == kind || (Resolve(t).kind == kind + 50 && vn.Some?)
    ensures !Accepts(None, vn, kind)
  {
  }

  /** initng_data_set_int_var and initng_data_set_string_var: overwrite the entry that a get
      would find, wherever on the chain it is, or else add one to this store.  After an
      accepted set a get finds the value, and every other entry keeps its own. */
  method SetValue(t: Option<Type>, vn: Option<string>, d: Store, value: Value, kind: int,
                  ghost chain: seq<Store>, ghost all: seq<Entry>)
    returns (accepted: bool)
    requires Chained(d, chain) && All(chain) == all && Distinct(all)
    modifies d, all
    ensures accepted == Accepts(t, vn, kind)
    ensures Chained(d, chain) && Distinct(All(chain))
    ensures !accepted ==> All(chain) == all
    ensures accepted ==> Lookup(chain, t.value, vn) != null && Lookup(chain, t.value, vn).value == value
    ensures forall e | e in all :: e in All(chain)
    ensures forall i | 0 <= i < |all| && (!accepted || all[i] != Lookup(chain, t.value, vn)) ::
              all[i].value == old(all[i].value)
    ensures forall i | 0 < i < |chain| :: chain[i].items == old(chain[i].items)
    ensures d.items == old(d.items) +
            if accepted && old(Lookup(chain, t.value, vn)) == null then [Lookup(chain, t.value, vn)] else []
  {
    if t.None? { return false; }
    var typ := Resolve(t.value);
    if vn.None? && typ.kind >= VARIABLE { return false; }
    if !IsKind(typ, kind) { return false; }
    ResolveTwice(t.value);
    Assign(typ, vn, d, value, chain, all);
    return true;
  }

  /** The same for a type that is no alias and may be set. */
  method Assign(t: Type, vn: Option<string>, d: Store, value: Value, ghost chain: seq<Store>, ghost all: seq<Entry>)
    requires Chained(d, chain) && All(chain) == all && Distinct(all) && Resolve(t) == t
    modifies d, all
    ensures Chained(d, chain) && Distinct(All(chain))
    ensures Lookup(chain, t, vn) != null && Lookup(chain, t, vn).value == value
    ensures forall e | e in all :: e in All(chain)
    ensures forall i | 0 <= i < |all| && all[i] != Lookup(chain, t, vn) :: all[i].value == old(all[i].value)
    ensures forall i | 0 < i < |chain| :: chain[i].items == old(chain[i].items)
    ensures d.items == old(d.items) + if old(Lookup(chain, t, vn)) == null then [Lookup(chain, t, vn)] else []
  {
    var current := GetNextVar(Some(t), vn, d, null, chain, -1);
    if current != null {
      Overwrite(current, value, all);
      assert All(chain) == all && current == Lookup(chain, t, vn);
    } else {
      Add(t, vn, value, d, chain);
    }
  }

  method Overwrite(e: Entry, value: Value, ghost all: seq<Entry>)
    requires e in all && Distinct(all)
    modifies e
    ensures e.value == value
    ensures forall i | 0 <= i < |all| && all[i] != e :: all[i].value == old(all[i].value)
  {
    e.value := value;
  }

  lemma ResolveTwice(t: Type)
    ensures Resolve(Resolve(t)) == Resolve(t)
  {
  }

  /** A new entry, behind those the store already has. */
  method Add(typ: Type, vn: Option<string>, value: Value, d: Store, ghost chain: seq<Store>)
    requires Chained(d, chain) && Distinct(All(chain)) && Resolve(typ) == typ
    requires First(All(chain), Some(typ), vn, 0) == |All(chain)|
    modifies d
    ensures Chained(d, chain) && Distinct(All(chain)) && |d.items| > 0 && fresh(d.items[|d.items| - 1])
    ensures d.items == old(d.items) + [d.items[|d.items| - 1]]
    ensures Lookup(chain, typ, vn) == d.items[|d.items| - 1] && Lookup(chain, typ, vn).value == value
    ensures forall e | e in old(All(chain)) :: e in All(chain)
    ensures forall i | 0 < i < |chain| :: chain[i].items == old(chain[i].items)
  {
    ghost var mine, rest := d.items, All(chain[1..]);
    var e := new Entry(typ, vn, value);
    assert d !in chain[1..];
    d.items := d.items + [e];
    assert All(chain[1..]) == rest;
    InsertMiddle(mine, rest, e, Some(typ), vn);
  }

  lemma InsertMiddle(a: seq<Entry>, b: seq<Entry>, e: Entry, t: Option<Type>, vn: Option<string>)
    requires Distinct(a + b) && e !in a + b && Matches(e, t, vn) && First(a + b, t, vn, 0) == |a + b|
    ensures Distinct((a + [e]) + b)
    ensures First((a + [e]) + b, t, vn, 0) == |a|
    ensures forall x | x in a + b :: x in (a + [e]) + b
  {
    var s := (a + [e]) + b;
    forall i, j | 0 <= i < j < |s| ensures s[i] != s[j] {
      var i' := if i <= |a| then i else i - 1;
      var j' := if j <= |a| then j else j - 1;
      if i != |a| { assert s[i] == (a + b)[i']; }
      if j != |a| { assert s[j] == (a + b)[j']; }
    }
    assert forall i | 0 <= i < |a| :: s[i] == (a + b)[i];
    assert s[|a|] == e;
    forall x | x in a + b ensures x in s {
      var k :| 0 <= k < |a + b| && (a + b)[k] == x;
      assert s[if k < |a| then k else k + 1] == x;
    }
  }

  /** initng_data_get_int_var: the first match, or zero. */
  method GetIntVar(t: Type, vn: Option<string>, d: Store, ghost chain: seq<Store>) returns (i: int)
    requires Chained(d, chain) && Distinct(All(chain))
    ensures i == match Lookup(chain, t, vn)
                 case e => if e != null && e.value.Number? then e.value.i else 0
  {
    var current := GetNextVar(Some(t), vn, d, null, chain, -1);
    if current != null && current.value.Number? { return current.value.i; }
    return 0;
  }

  /** initng_data_set_var, the set of a flag: added if it is not there already. */
  method SetVar(t: Option<Type>, vn: Option<string>, d: Store, ghost chain: seq<Store>) returns (accepted: bool)
    requires Chained(d, chain) && Distinct(All(chain))
    modifies d
    ensures accepted == Accepts(t, vn, SET)
    ensures Chained(d, chain) && Distinct(All(chain))
    ensures accepted ==> Lookup(chain, t.value, vn) != null
    ensures !accepted || old(Lookup(chain, t.value, vn)) != null ==> All(chain) == old(All(chain))
    ensures forall e | e in old(All(chain)) :: e in All(chain)
    ensures forall i | 0 < i < |chain| :: chain[i].items == old(chain[i].items)
    ensures d.items == old(d.items) +
            if accepted && old(Lookup(chain, t.value, vn)) == null then [Lookup(chain, t.value, vn)] else []
  {
    if t.None? { return false; }
    var typ := Resolve(t.value);
    if vn.None? && typ.kind >= VARIABLE { return false; }
    if !IsKind(typ, SET) { return false; }
    ResolveTwice(t.value);
    var current := GetNextVar(Some(typ), vn, d, null, chain, -1);
    if current != null { return true; }
    Add(typ, vn, Unset, d, chain);
    return true;
  }
}
