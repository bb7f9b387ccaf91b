/** Canonical JSON: objects rebuilt with their keys in order, so that equal content always serialises to equal text. */
module CanonicalJson {
  import opened Wrappers
  import opened Json
  import opened JsonRoundTrip
  import L = Lexicographic
  import S = StableSort

  /** `__proto__`.  Assigning to this key sets an object's prototype instead of defining a property. */
  const PROTO: Text := [0x5F, 0x5F, 0x70, 0x72, 0x6F, 0x74, 0x6F, 0x5F, 0x5F]

  /** `object[key] = value` on an object that holds `members`. */
  function Assign(members: seq<Member>, m: Member): seq<Member> {
    if m.key == PROTO then members else Put(members, m)
  }

  function AssignAll(members: seq<Member>): seq<Member> {
    if members == [] then [] else Assign(AssignAll(members[..|members| - 1]), members[|members| - 1])
  }

  function Keys(members: seq<Member>): seq<Text> {
    seq(|members|, i requires 0 <= i < |members| => members[i].key)
  }

  function KeyLess(keys: seq<Text>): S.Comparison {
    (i: nat, j: nat) => i < |keys| && j < |keys| && LexLess(keys[i], keys[j])
  }

  /** The places of the keys in `Object.keys(value).sort()`. */
  function KeyOrder(keys: seq<Text>): (order: seq<nat>)
    ensures |order| == |keys| && S.Below(order, |keys|)
  {
    S.SortMembers(KeyLess(keys), |keys|);
    S.Sort(KeyLess(keys), |keys|)
  }

  function SortedByKey(members: seq<Member>): (sorted: seq<Member>)
    ensures |sorted| == |members|
  {
    var order := KeyOrder(Keys(members));
    seq(|members|, k requires 0 <= k < |members| => members[order[k]])
  }

  /** The value rebuilt, at every depth, by assigning the keys of each object in code-unit order. */
  function Canon(v: Json): Json
    decreases v, 1
  {
    match v
    case Arr(items) => Arr(seq(|items|, i requires 0 <= i < |items| => Canon(items[i])))
    case Obj(members) => Obj(AssignAll(SortedByKey(CanonValues(members))))
    case _ => v
  }

  function CanonValues(members: seq<Member>): (canon: seq<Member>)
    ensures |canon| == |members|
    ensures forall i :: 0 <= i < |members| ==> canon[i] == Member(members[i].key, Canon(members[i].value))
    decreases members, 0
  {
    seq(|members|, i requires 0 <= i < |members| => Member(members[i].key, Canon(members[i].value)))
  }

  /** The recursive rebuild: arrays element by element, objects key by key in sorted order. */
  method SortKeysDeep(v: Json) returns (r: Json)
    ensures r == Canon(v)
    decreases v
  {
    match v
    case Arr(items) =>
      var sorted: seq<Json> := [];
      for i := 0 to |items|
        invariant |sorted| == i && forall j :: 0 <= j < i ==> sorted[j] == Canon(items[j])
      {
        var item := SortKeysDeep(items[i]);
        sorted := sorted + [item];
      }
      r := Arr(sorted);
    case Obj(members) =>
      var order := KeyOrder(Keys(members));
      ghost var all := SortedByKey(CanonValues(members));
      assert Keys(CanonValues(members)) == Keys(members);
      var sorted: seq<Member> := [];
      for k := 0 to |members|
        invariant sorted == AssignAll(all[..k])
      {
        var key := members[order[k]].key;
        var value := SortKeysDeep(members[order[k]].value);
        assert all[..k + 1][..k] == all[..k] && all[k] == Member(key, value);
        sorted := Assign(sorted, Member(key, value));
      }
      assert all[..|members|] == all;
      r := Obj(sorted);
    case _ =>
      r := v;
  }

  /** The audit trail's form: no white space. */
  function CanonicalText(v: Json): Text {
    Stringify(Canon(v), 0, 0)
  }

  /** The published API description's form: indented by two, and ended by a line feed. */
  function StableText(v: Json): Text {
    Stringify(Canon(v), 2, 0) + [LF]
  }

  method CanonicalJsonStringify(v: Json) returns (t: Text)
    ensures t == CanonicalText(v)
  {
    var sorted := SortKeysDeep(v);
    t := Stringify(sorted, 0, 0);
  }

  method StableStringify(v: Json) returns (t: Text)
    ensures t == StableText(v)
  {
    var sorted := SortKeysDeep(v);
    t := Stringify(sorted, 2, 0) + [LF];
  }

  // ----- Orders on keys -----

  lemma KeysTotallyOrdered(a: Text, b: Text, c: Text)
    ensures !LexLess(a, a)
    ensures LexLess(a, b) || LexLess(b, a) || a == b
    ensures LexLess(a, b) && LexLess(b, c) ==> LexLess(a, c)
    ensures !(LexLess(a, b) && LexLess(b, a))
  {
    L.Order(CodeUnit, a, b, c);
    L.Order(CodeUnit, a, b, a);
  }

  lemma PrecedenceOrder(a: Text, b: Text, c: Text)
    ensures MayPrecede(a, b) && MayPrecede(b, c) ==> MayPrecede(a, c)
    ensures a != b && !MayPrecede(a, b) ==> MayPrecede(b, a)
  {
    KeysTotallyOrdered(a, b, c);
    KeysTotallyOrdered(b, a, c);
  }

  ghost predicate DistinctKeys(members: seq<Member>) {
    forall i, j :: 0 <= i < j < |members| ==> members[i].key != members[j].key
  }

  ghost predicate StrictlySorted(members: seq<Member>) {
    forall i, j :: 0 <= i < j < |members| ==> LexLess(members[i].key, members[j].key)
  }

  lemma KeyLessIsWeakOrder(keys: seq<Text>)
    ensures S.WeakOrder(KeyLess(keys), |keys|)
  {
    forall i: nat, j: nat, k: nat | i < |keys| && j < |keys| && k < |keys|
      ensures S.Consistent(KeyLess(keys), i, j, k)
    {
      KeysTotallyOrdered(keys[i], keys[j], keys[k]);
      KeysTotallyOrdered(keys[i], keys[k], keys[j]);
      KeysTotallyOrdered(keys[j], keys[i], keys[k]);
    }
  }

  /** Sorting members with distinct keys: strictly ascending, and the same members. */
  lemma SortedByKeyCorrect(members: seq<Member>)
    requires DistinctKeys(members)
    ensures StrictlySorted(SortedByKey(members))
    ensures forall m :: m in SortedByKey(members) <==> m in members
  {
    var keys, sorted := Keys(members), SortedByKey(members);
    var order := KeyOrder(keys);
    KeyLessIsWeakOrder(keys);
    S.SortMembers(KeyLess(keys), |keys|);
    S.SortSorts(KeyLess(keys), |keys|);
    forall a, b | 0 <= a < b < |sorted| ensures LexLess(sorted[a].key, sorted[b].key) {
      var i, j := order[a], order[b];
      assert S.Ahead(KeyLess(keys), i, j);
      S.AheadIsTotal(KeyLess(keys), |keys|, i, j);
      assert keys[i] != keys[j];
      KeysTotallyOrdered(keys[i], keys[j], keys[i]);
    }
    forall m | m in members ensures m in sorted {
      var i: nat :| i < |members| && members[i] == m;
      var k := S.PlaceOf(order, i);
      assert sorted[k] == m;
    }
  }

  lemma TailsHaveSameMembers(s: seq<Member>, t: seq<Member>)
    requires StrictlySorted(s) && StrictlySorted(t) && s != [] && t != []
    requires s[0] == t[0] && forall m :: m in s <==> m in t
    ensures forall m :: m in s[1..] <==> m in t[1..]
  {
    KeysTotallyOrdered(s[0].key, s[0].key, s[0].key);
    assert s == [s[0]] + s[1..] && t == [t[0]] + t[1..];
    forall m ensures m in s[1..] <==> m in s && m != s[0] {
      FirstOnlyOnce(s, m);
    }
    forall m ensures m in t[1..] <==> m in t && m != t[0] {
      FirstOnlyOnce(t, m);
    }
  }

  lemma FirstOnlyOnce(s: seq<Member>, m: Member)
    requires StrictlySorted(s) && s != []
    ensures m in s[1..] <==> m in s && m != s[0]
  {
    assert s == [s[0]] + s[1..];
    KeysTotallyOrdered(s[0].key, s[0].key, s[0].key);
    if m in s[1..] {
      var i :| 0 <= i < |s[1..]| && s[1..][i] == m;
      assert LexLess(s[0].key, s[i + 1].key);
    }
  }

  lemma SmallestFirst(s: seq<Member>, t: seq<Member>)
    requires StrictlySorted(s) && StrictlySorted(t) && s != [] && forall m :: m in s <==> m in t
    ensures t != [] && s[0] == t[0]
  {
    assert s[0] in t;
    var j: nat :| j < |t| && t[j] == s[0];
    assert t[0] in s;
    var i: nat :| i < |s| && s[i] == t[0];
    LeastIsFirst(t, j);
    LeastIsFirst(s, i);
    KeysTotallyOrdered(s[0].key, t[0].key, s[0].key);
  }

  lemma LeastIsFirst(s: seq<Member>, i: nat)
    requires StrictlySorted(s) && i < |s|
    ensures s[i] == s[0] || LexLess(s[0].key, s[i].key)
  {
  }

  /** There is only one way to sort a set of members with distinct keys. */
  lemma {:induction false} SortingIsUnique(s: seq<Member>, t: seq<Member>)
    requires StrictlySorted(s) && StrictlySorted(t) && forall m :: m in s <==> m in t
    ensures s == t
  {
    if s == [] {
      NoMembers(t);
    } else {
      SmallestFirst(s, t);
      TailsHaveSameMembers(s, t);
      SortingIsUnique(s[1..], t[1..]);
      assert s == [s[0]] + s[1..] && t == [t[0]] + t[1..];
    }
  }

  lemma NoMembers(t: seq<Member>)
    ensures t != [] ==> exists m :: m in t
  {
    if t != [] {
      assert t[0] in t;
    }
  }

  // ----- Building objects -----

  function Visible(members: seq<Member>): seq<Member> {
    if members == [] then []
    else
      var last := members[|members| - 1];
      Visible(members[..|members| - 1]) + if last.key == PROTO then [] else [last]
  }

  lemma {:induction false} VisibleMembers(members: seq<Member>, m: Member)
    ensures m in Visible(members) <==> m in members && m.key != PROTO
  {
    if members != [] {
      var init, last := members[..|members| - 1], members[|members| - 1];
      assert members == init + [last];
      VisibleMembers(init, m);
    }
  }

  lemma {:induction false} VisibleSorted(members: seq<Member>)
    requires StrictlySorted(members)
    ensures StrictlySorted(Visible(members))
  {
    if members != [] {
      var init, last := members[..|members| - 1], members[|members| - 1];
      VisibleSorted(init);
      forall i | 0 <= i < |Visible(init)| ensures LexLess(Visible(init)[i].key, last.key) {
        VisibleMembers(init, Visible(init)[i]);
      }
    }
  }

  lemma {:induction false} AssignAllPuts(members: seq<Member>)
    ensures AssignAll(members) == PutAll(Visible(members))
  {
    if members != [] {
      var init, last := members[..|members| - 1], members[|members| - 1];
      AssignAllPuts(init);
      if last.key != PROTO {
        assert Visible(members)[..|Visible(init)|] == Visible(init);
      } else {
        assert Visible(members) == Visible(init);
      }
    }
  }

  lemma {:induction false} PlacedMembers(members: seq<Member>, m: Member, x: Member)
    ensures x in Placed(members, m) <==> x in members || x == m
  {
    if members != [] {
      assert members == members[..|members| - 1] + [members[|members| - 1]];
      if !MayPrecede(members[|members| - 1].key, m.key) {
        PlacedMembers(members[..|members| - 1], m, x);
      }
    }
  }

  lemma {:induction false} PlacedEnumerable(members: seq<Member>, m: Member)
    requires Enumerable(members) && !HasKey(members, m.key)
    ensures Enumerable(Placed(members, m))
  {
    if members != [] {
      var init, last := members[..|members| - 1], members[|members| - 1];
      if MayPrecede(last.key, m.key) {
        forall i | 0 <= i < |members| ensures MayPrecede(members[i].key, m.key) && members[i].key != m.key {
          if i < |members| - 1 {
            PrecedenceOrder(members[i].key, last.key, m.key);
          }
        }
        assert Placed(members, m) == members + [m];
      } else {
        assert !HasKey(init, m.key);
        PlacedEnumerable(init, m);
        var front := Placed(init, m);
        forall i | 0 <= i < |front| ensures MayPrecede(front[i].key, last.key) && front[i].key != last.key {
          PlacedMembers(init, m, front[i]);
          PrecedenceOrder(last.key, m.key, last.key);
        }
      }
    }
  }

  /** An object built from members with distinct keys holds exactly these, in enumeration order. */
  lemma {:induction false} PutAllMembers(members: seq<Member>)
    requires DistinctKeys(members)
    ensures Enumerable(PutAll(members)) && forall x :: x in PutAll(members) <==> x in members
  {
    if members != [] {
      var init, last := members[..|members| - 1], members[|members| - 1];
      assert members == init + [last];
      PutAllMembers(init);
      var before := PutAll(init);
      forall i | 0 <= i < |before| ensures before[i].key != last.key {
        assert before[i] in init;
      }
      assert !HasKey(before, last.key);
      PlacedEnumerable(before, last);
      forall x ensures x in PutAll(members) <==> x in members {
        PlacedMembers(before, last, x);
      }
    }
  }

  /** The canonical form of an object: its visible members, canonical, each once and in enumeration order. */
  lemma CanonMembers(v: Json)
    requires Holdable(v) && v.Obj?
    ensures var sorted := Visible(SortedByKey(CanonValues(v.members)));
            && StrictlySorted(sorted) && Canon(v).members == PutAll(sorted)
            && (forall m :: m in sorted <==> m in CanonValues(v.members) && m.key != PROTO)
            && (forall m :: m in Canon(v).members <==> m in CanonValues(v.members) && m.key != PROTO)
            && Enumerable(Canon(v).members)
  {
    var all := SortedByKey(CanonValues(v.members));
    SortedByKeyCorrect(CanonValues(v.members));
    VisibleSorted(all);
    AssignAllPuts(all);
    var sorted := Visible(all);
    forall m ensures m in sorted <==> m in CanonValues(v.members) && m.key != PROTO {
      VisibleMembers(all, m);
    }
    forall i, j | 0 <= i < j < |sorted| ensures sorted[i].key != sorted[j].key {
      KeysTotallyOrdered(sorted[i].key, sorted[j].key, sorted[i].key);
    }
    PutAllMembers(sorted);
  }

  // ----- Equality as unordered JSON -----

  /** Equal up to the order of object keys at every depth, own `__proto__` members aside. */
  ghost predicate Same(a: Json, b: Json)
    decreases a
  {
    match (a, b)
    case (Arr(xs), Arr(ys)) => |xs| == |ys| && forall i :: 0 <= i < |xs| ==> Same(xs[i], ys[i])
    case (Obj(ms), Obj(ns)) =>
      && (forall i :: 0 <= i < |ms| && ms[i].key != PROTO ==>
            exists j :: 0 <= j < |ns| && ns[j].key == ms[i].key && Same(ms[i].value, ns[j].value))
      && (forall j :: 0 <= j < |ns| && ns[j].key != PROTO ==> HasKey(ms, ns[j].key))
    case _ => a == b
  }

  lemma {:induction false} SameMeansSameCanon(a: Json, b: Json)
    requires Holdable(a) && Holdable(b) && Same(a, b)
    ensures Canon(a) == Canon(b)
    decreases a, 1
  {
    match (a, b)
    case (Arr(xs), Arr(ys)) =>
      forall i | 0 <= i < |xs| ensures Canon(xs[i]) == Canon(ys[i]) {
        SameMeansSameCanon(xs[i], ys[i]);
      }
    case (Obj(ms), Obj(ns)) =>
      SameObjects(a, b);
    case _ =>
  }

  lemma {:induction false} SameObjects(a: Json, b: Json)
    requires Holdable(a) && Holdable(b) && a.Obj? && b.Obj? && Same(a, b)
    ensures Canon(a) == Canon(b)
    decreases a, 0, 3
  {
    CanonMembers(a);
    CanonMembers(b);
    var s, t := Visible(SortedByKey(CanonValues(a.members))), Visible(SortedByKey(CanonValues(b.members)));
    forall m ensures m in s <==> m in t {
      if m.key != PROTO {
        MemberInBoth(a, b, m);
      }
    }
    SortingIsUnique(s, t);
  }

  lemma {:induction false} MemberInBoth(a: Json, b: Json, m: Member)
    requires Holdable(a) && Holdable(b) && a.Obj? && b.Obj? && Same(a, b) && m.key != PROTO
    ensures m in CanonValues(a.members) <==> m in CanonValues(b.members)
    decreases a, 0, 2
  {
    if m in CanonValues(a.members) {
      var i: nat :| i < |a.members| && CanonValues(a.members)[i] == m;
      var j := Counterpart(a, b, i);
      assert CanonValues(b.members)[j] == m;
    }
    if m in CanonValues(b.members) {
      var j: nat :| j < |b.members| && CanonValues(b.members)[j] == m;
      var i := ReverseCounterpart(a, b, j);
      assert CanonValues(a.members)[i] == m;
    }
  }

  lemma {:induction false} ReverseCounterpart(a: Json, b: Json, j: nat) returns (i: nat)
    requires Holdable(a) && Holdable(b) && a.Obj? && b.Obj? && Same(a, b)
    requires j < |b.members| && b.members[j].key != PROTO
    ensures i < |a.members| && a.members[i].key == b.members[j].key
    ensures Canon(b.members[j].value) == Canon(a.members[i].value)
    decreases a, 0, 1
  {
    assert HasKey(a.members, b.members[j].key);
    i :| i < |a.members| && a.members[i].key == b.members[j].key;
    var k := Counterpart(a, b, i);
    OneMemberPerKey(b.members, j, k);
  }

  lemma OneMemberPerKey(members: seq<Member>, j: nat, k: nat)
    requires Enumerable(members) && j < |members| && k < |members| && members[j].key == members[k].key
    ensures j == k
  {
  }

  /** The member that a visible member of `a` corresponds to has the same canonical value. */
  lemma {:induction false} Counterpart(a: Json, b: Json, i: nat) returns (j: nat)
    requires Holdable(a) && Holdable(b) && a.Obj? && b.Obj? && Same(a, b)
    requires i < |a.members| && a.members[i].key != PROTO
    ensures j < |b.members| && b.members[j].key == a.members[i].key
    ensures Canon(b.members[j].value) == Canon(a.members[i].value)
    decreases a, 0, 0
  {
    j :| j < |b.members| && b.members[j].key == a.members[i].key && Same(a.members[i].value, b.members[j].value);
    SameMeansSameCanon(a.members[i].value, b.members[j].value);
  }

  lemma {:induction false} SameCanonMeansSame(a: Json, b: Json)
    requires Holdable(a) && Holdable(b) && Canon(a) == Canon(b)
    ensures Same(a, b)
    decreases a, 1
  {
    match (a, b)
    case (Arr(xs), Arr(ys)) =>
      assert |Canon(a).items| == |xs| && |Canon(b).items| == |ys|;
      forall i | 0 <= i < |xs| ensures Same(xs[i], ys[i]) {
        assert Canon(a).items[i] == Canon(xs[i]) && Canon(b).items[i] == Canon(ys[i]);
        SameCanonMeansSame(xs[i], ys[i]);
      }
    case (Obj(ms), Obj(ns)) =>
      forall i | 0 <= i < |ms| && ms[i].key != PROTO
        ensures exists j :: 0 <= j < |ns| && ns[j].key == ms[i].key && Same(ms[i].value, ns[j].value)
      {
        var j := SameMember(a, b, i);
      }
      forall j | 0 <= j < |ns| && ns[j].key != PROTO ensures HasKey(ms, ns[j].key) {
        SameCanonSameKeys(a, b, j);
      }
    case _ =>
  }

  lemma SameCanonSameKeys(a: Json, b: Json, j: nat)
    requires Holdable(a) && Holdable(b) && a.Obj? && b.Obj? && Canon(a) == Canon(b)
    requires j < |b.members| && b.members[j].key != PROTO
    ensures HasKey(a.members, b.members[j].key)
  {
    CanonMembers(a);
    CanonMembers(b);
    assert CanonValues(b.members)[j] in Canon(a).members;
    var i :| 0 <= i < |a.members| && CanonValues(a.members)[i] == CanonValues(b.members)[j];
    assert a.members[i].key == b.members[j].key;
  }

  lemma {:induction false} SameMember(a: Json, b: Json, i: nat) returns (j: nat)
    requires Holdable(a) && Holdable(b) && a.Obj? && b.Obj? && Canon(a) == Canon(b)
    requires i < |a.members| && a.members[i].key != PROTO
    ensures j < |b.members| && b.members[j].key == a.members[i].key && Same(a.members[i].value, b.members[j].value)
    decreases a, 0
  {
    CanonMembers(a);
    CanonMembers(b);
    assert CanonValues(a.members)[i] in Canon(b).members;
    j :| j < |b.members| && CanonValues(b.members)[j] == CanonValues(a.members)[i];
    SameCanonMeansSame(a.members[i].value, b.members[j].value);
  }

  lemma {:induction false} CanonIsHoldable(v: Json)
    requires Holdable(v)
    ensures Holdable(Canon(v))
    decreases v, 1
  {
    match v
    case Arr(items) =>
      forall i | 0 <= i < |items| ensures Holdable(Canon(v).items[i]) {
        CanonIsHoldable(items[i]);
      }
    case Obj(members) =>
      CanonMembers(v);
      forall k: nat | k < |Canon(v).members| ensures Holdable(Canon(v).members[k].value) {
        CanonMemberIsHoldable(v, k);
      }
    case _ =>
  }

  lemma {:induction false} CanonMemberIsHoldable(v: Json, k: nat)
    requires Holdable(v) && v.Obj? && k < |Canon(v).members|
    ensures Holdable(Canon(v).members[k].value)
    decreases v, 0
  {
    CanonMembers(v);
    assert Canon(v).members[k] in Canon(v).members;
    var i :| 0 <= i < |v.members| && CanonValues(v.members)[i] == Canon(v).members[k];
    CanonIsHoldable(v.members[i].value);
  }

  /**
    Two values serialise canonically to the same text if and only if they are equal as unordered JSON, their
    own `__proto__` members aside.
   */
  lemma CanonicalTextDecidesEquality(a: Json, b: Json)
    requires Holdable(a) && Holdable(b)
    ensures CanonicalText(a) == CanonicalText(b) <==> Same(a, b)
    ensures StableText(a) == StableText(b) <==> Same(a, b)
  {
    CanonIsHoldable(a);
    CanonIsHoldable(b);
    if Same(a, b) {
      SameMeansSameCanon(a, b);
    }
    if Canon(a) == Canon(b) {
      SameCanonMeansSame(a, b);
    }
    ParseStringify(Canon(a), 0, []);
    ParseStringify(Canon(b), 0, []);
    assert CanonicalText(a) + [] == CanonicalText(a) && CanonicalText(b) + [] == CanonicalText(b);
    assert Skip([LF]) == [];
    ParseStringify(Canon(a), 2, [LF]);
    ParseStringify(Canon(b), 2, [LF]);
  }

  /** Reading a canonical text back gives the rebuilt value, for both forms. */
  lemma CanonicalTextParses(v: Json)
    requires Holdable(v)
    ensures Parse(CanonicalText(v)) == Some(Canon(v)) && Parse(StableText(v)) == Some(Canon(v))
  {
    CanonIsHoldable(v);
    ParseStringify(Canon(v), 0, []);
    assert CanonicalText(v) + [] == CanonicalText(v);
    assert Skip([LF]) == [];
    ParseStringify(Canon(v), 2, [LF]);
  }

  lemma {:induction false} CanonIsSame(v: Json)
    requires Holdable(v)
    ensures Same(Canon(v), v)
    decreases v, 1
  {
    match v
    case Arr(items) =>
      forall i | 0 <= i < |items| ensures Same(Canon(v).items[i], items[i]) {
        CanonIsSame(items[i]);
      }
    case Obj(members) =>
      var canon := Canon(v).members;
      forall k | 0 <= k < |canon| && canon[k].key != PROTO
        ensures exists i :: 0 <= i < |members| && members[i].key == canon[k].key && Same(canon[k].value, members[i].value)
      {
        var i := OriginalMember(v, k);
      }
      CanonMembers(v);
      forall i | 0 <= i < |members| && members[i].key != PROTO ensures HasKey(canon, members[i].key) {
        assert CanonValues(members)[i] in canon;
      }
    case _ =>
  }

  lemma {:induction false} OriginalMember(v: Json, k: nat) returns (i: nat)
    requires Holdable(v) && v.Obj? && k < |Canon(v).members|
    ensures var m := Canon(v).members[k];
            i < |v.members| && v.members[i].key == m.key && Same(m.value, v.members[i].value)
    decreases v, 0
  {
    CanonMembers(v);
    assert Canon(v).members[k] in Canon(v).members;
    i :| i < |v.members| && CanonValues(v.members)[i] == Canon(v).members[k];
    CanonIsSame(v.members[i].value);
  }

  /** Rebuilding a rebuilt value changes nothing. */
  lemma CanonIsIdempotent(v: Json)
    requires Holdable(v)
    ensures Canon(Canon(v)) == Canon(v)
  {
    CanonIsHoldable(v);
    CanonIsSame(v);
    SameMeansSameCanon(Canon(v), v);
  }

  // ----- Alphabetical keys -----

  /** The keys of every object, at every depth, come in ascending code-unit order. */
  ghost predicate Alphabetical(v: Json) {
    match v
    case Arr(items) => forall i :: 0 <= i < |items| ==> Alphabetical(items[i])
    case Obj(members) =>
      StrictlySorted(members) && forall i :: 0 <= i < |members| ==> Alphabetical(members[i].value)
    case _ => true
  }

  /** Enumeration puts no array index ahead of a key that sorts before it. */
  predicate KeysAgree(members: seq<Member>) {
    forall i, j :: 0 <= i < |members| && 0 <= j < |members| && members[i].key != PROTO && members[j].key != PROTO ==>
      (LexLess(members[i].key, members[j].key) ==> MayPrecede(members[i].key, members[j].key))
  }

  /** So it is in every object of the value that leaves a trace in the text. */
  ghost predicate OrdersAgree(v: Json) {
    match v
    case Arr(items) => forall i :: 0 <= i < |items| ==> OrdersAgree(items[i])
    case Obj(members) =>
      KeysAgree(members)
      && forall i :: 0 <= i < |members| && members[i].key != PROTO ==> OrdersAgree(members[i].value)
    case _ => true
  }

  /** One object: assigning the keys in sorted order leaves them sorted if and only if enumeration agrees. */
  lemma SortedIffKeysAgree(v: Json)
    requires Holdable(v) && v.Obj?
    ensures StrictlySorted(Canon(v).members) <==> KeysAgree(v.members)
  {
    CanonMembers(v);
    var sorted, canon := Visible(SortedByKey(CanonValues(v.members))), Canon(v).members;
    if KeysAgree(v.members) {
      forall i, j | 0 <= i < j < |sorted|
        ensures sorted[i].key != sorted[j].key && MayPrecede(sorted[i].key, sorted[j].key)
      {
        var k := OriginalKey(v, sorted[i]);
        var l := OriginalKey(v, sorted[j]);
        KeysTotallyOrdered(sorted[i].key, sorted[j].key, sorted[i].key);
      }
      PutAllEnumerable(sorted);
    }
    if StrictlySorted(canon) {
      forall i: nat, j: nat | i < |v.members| && j < |v.members| && v.members[i].key != PROTO && v.members[j].key != PROTO
                    && LexLess(v.members[i].key, v.members[j].key)
        ensures MayPrecede(v.members[i].key, v.members[j].key)
      {
        InKeyOrder(v, i, j);
      }
    }
  }

  lemma OriginalKey(v: Json, m: Member) returns (i: nat)
    requires v.Obj? && m in CanonValues(v.members)
    ensures i < |v.members| && v.members[i].key == m.key
  {
    i :| i < |v.members| && CanonValues(v.members)[i] == m;
  }

  /** Where a visible member of the original ends up. */
  lemma CanonPlace(v: Json, i: nat) returns (k: nat)
    requires Holdable(v) && v.Obj? && i < |v.members| && v.members[i].key != PROTO
    ensures k < |Canon(v).members| && Canon(v).members[k] == CanonValues(v.members)[i]
    ensures Canon(v).members[k].key == v.members[i].key && Enumerable(Canon(v).members)
  {
    CanonMembers(v);
    var m := CanonValues(v.members)[i];
    assert m in CanonValues(v.members);
    k :| k < |Canon(v).members| && Canon(v).members[k] == m;
  }

  /** Where a member of the result comes from. */
  lemma OriginalPlace(v: Json, k: nat) returns (i: nat)
    requires Holdable(v) && v.Obj? && k < |Canon(v).members|
    ensures i < |v.members| && v.members[i].key != PROTO && CanonValues(v.members)[i] == Canon(v).members[k]
  {
    CanonMembers(v);
    var m := Canon(v).members[k];
    assert m in Canon(v).members;
    i :| i < |v.members| && CanonValues(v.members)[i] == m;
  }

  lemma InKeyOrder(v: Json, i: nat, j: nat)
    requires Holdable(v) && v.Obj? && StrictlySorted(Canon(v).members)
    requires i < |v.members| && j < |v.members| && v.members[i].key != PROTO && v.members[j].key != PROTO
    requires LexLess(v.members[i].key, v.members[j].key)
    ensures MayPrecede(v.members[i].key, v.members[j].key)
  {
    var a := CanonPlace(v, i);
    var b := CanonPlace(v, j);
    SortedPlaces(Canon(v).members, a, b);
  }

  lemma SortedPlaces(members: seq<Member>, a: nat, b: nat)
    requires StrictlySorted(members) && Enumerable(members) && a < |members| && b < |members|
    requires LexLess(members[a].key, members[b].key)
    ensures MayPrecede(members[a].key, members[b].key)
  {
    KeysTotallyOrdered(members[a].key, members[b].key, members[a].key);
  }

  /**
    The keys come out alphabetically at every depth if and only if JavaScript's own enumeration, which puts
    array indices first and in numeric order, agrees with the alphabet in every object.
   */
  lemma {:induction false} AlphabeticalIffOrdersAgree(v: Json)
    requires Holdable(v)
    ensures Alphabetical(Canon(v)) <==> OrdersAgree(v)
    decreases v, 1
  {
    match v
    case Arr(items) =>
      var canon := Canon(v).items;
      forall i | 0 <= i < |items| ensures Alphabetical(canon[i]) <==> OrdersAgree(items[i]) {
        AlphabeticalIffOrdersAgree(items[i]);
      }
    case Obj(members) =>
      SortedIffKeysAgree(v);
      ValuesAlphabeticalIff(v);
    case _ =>
  }

  lemma {:induction false} ValuesAlphabeticalIff(v: Json)
    requires Holdable(v) && v.Obj?
    ensures (forall k :: 0 <= k < |Canon(v).members| ==> Alphabetical(Canon(v).members[k].value))
       <==> forall i :: 0 <= i < |v.members| && v.members[i].key != PROTO ==> OrdersAgree(v.members[i].value)
    decreases v, 0
  {
    var members, canon := v.members, Canon(v).members;
    forall k | 0 <= k < |canon|
      ensures exists i :: 0 <= i < |members| && members[i].key != PROTO
                          && (Alphabetical(canon[k].value) <==> OrdersAgree(members[i].value))
    {
      var i := OriginalPlace(v, k);
      AlphabeticalIffOrdersAgree(members[i].value);
    }
    forall i | 0 <= i < |members| && members[i].key != PROTO
      ensures exists k :: 0 <= k < |canon| && (Alphabetical(canon[k].value) <==> OrdersAgree(members[i].value))
    {
      var k := CanonPlace(v, i);
      AlphabeticalIffOrdersAgree(members[i].value);
    }
  }

  /** An object with the keys `9` and `10` comes out in that order, although `10` is alphabetically first. */
  lemma NumericKeysAreNotAlphabetical()
    ensures var v := Obj([Member([0x39], Null), Member([0x31, 0x30], Null)]); Holdable(v) && !Alphabetical(Canon(v))
  {
    var v := Obj([Member([0x39], Null), Member([0x31, 0x30], Null)]);
    assert IsIndex([0x39]);
    assert !MayPrecede([0x31, 0x30], [0x39]) && LexLess([0x31, 0x30], [0x39]);
    assert IsIndex([0x31, 0x30]);
    assert Holdable(v);
    assert v.members[1].key == [0x31, 0x30] && v.members[0].key == [0x39];
    AlphabeticalIffOrdersAgree(v);
  }

  // ----- The prototype -----

  /** Why `__proto__` is set aside: an own member of that name, as parsing can produce, leaves no trace in the text. */
  lemma ProtoMemberIsLost()
    ensures var a, b := Obj([Member(PROTO, Bool(true))]), Obj([]);
            Holdable(a) && Holdable(b) && a != b && CanonicalText(a) == CanonicalText(b)
  {
    var a, b := Obj([Member(PROTO, Bool(true))]), Obj([]);
    CanonicalTextDecidesEquality(a, b);
  }
}
