/**
 The canonical form that is signed (src/checkpoint/delta.rs): object members sorted by name at
 every depth. Objects are ordered member lists, as in section 4 of RFC 8259.
 */
module JsonCanonical {
  datatype Json =
    | Null
    | Bool(b: bool)
    | Number(text: string)
    | String(s: string)
    | Array(items: seq<Json>)
    | Object(members: seq<Member>)

  datatype Member = Member(name: string, value: Json)

  // ---------------------------------------------------------------- the order of names

  /** Strict lexicographic order by character code, the order of `String` keys. */
  predicate Less(a: string, b: string) {
    b != "" && (a == "" || a[0] < b[0] || (a[0] == b[0] && Less(a[1..], b[1..])))
  }

  lemma {:induction false} LessIsTotal(a: string, b: string)
    ensures (a == b && !Less(a, b) && !Less(b, a)) || (a != b && Less(a, b) != Less(b, a))
  {
    if a != "" && b != "" && a[0] == b[0] {
      LessIsTotal(a[1..], b[1..]);
      assert a == [a[0]] + a[1..] && b == [b[0]] + b[1..];
    }
  }

  lemma {:induction false} LessIsTransitive(a: string, b: string, c: string)
    requires Less(a, b) && Less(b, c)
    ensures Less(a, c)
  {
    if a != "" && a[0] == b[0] && b[0] == c[0] {
      LessIsTransitive(a[1..], b[1..], c[1..]);
    }
  }

  /** `a` is a proper prefix of `b`, or has the smaller character where they first differ. */
  ghost predicate ComesBefore(a: string, b: string) {
    || (|a| < |b| && b[..|a|] == a)
    || exists p :: 0 <= p < |a| && p < |b| && a[..p] == b[..p] && a[p] < b[p]
  }

  lemma {:induction false} LessIsBefore(a: string, b: string)
    requires Less(a, b)
    ensures ComesBefore(a, b)
  {
    if a == "" {
      assert b[..0] == a;
    } else if a[0] < b[0] {
      assert a[..0] == b[..0];
    } else {
      var x, y := a[1..], b[1..];
      LessIsBefore(x, y);
      assert a == [a[0]] + x && b == [b[0]] + y;
      if |x| < |y| && y[..|x|] == x {
        assert b[..|a|] == [b[0]] + y[..|x|];
      } else {
        var p :| 0 <= p < |x| && p < |y| && x[..p] == y[..p] && x[p] < y[p];
        assert a[..p + 1] == [a[0]] + x[..p] && b[..p + 1] == [b[0]] + y[..p];
        assert a[p + 1] < b[p + 1];
      }
    }
  }

  // ---------------------------------------------------------------- sorting members

  function Insert(m: Member, ms: seq<Member>): (r: seq<Member>)
    ensures |r| == |ms| + 1
  {
    if ms != [] && Less(ms[0].name, m.name) then [ms[0]] + Insert(m, ms[1..]) else [m] + ms
  }

  function SortMembers(ms: seq<Member>): (r: seq<Member>)
    ensures |r| == |ms|
  {
    if ms == [] then [] else Insert(ms[0], SortMembers(ms[1..]))
  }

  ghost predicate Ascending(ms: seq<Member>) {
    forall i, j :: 0 <= i < j < |ms| ==> Less(ms[i].name, ms[j].name)
  }

  /** Ascending, in terms of characters. */
  ghost predicate InOrder(ms: seq<Member>) {
    forall i, j :: 0 <= i < j < |ms| ==> ComesBefore(ms[i].name, ms[j].name)
  }

  lemma AscendingIsInOrder(ms: seq<Member>)
    requires Ascending(ms)
    ensures InOrder(ms)
  {
    hide Less, ComesBefore;
    forall i, j | 0 <= i < j < |ms|
      ensures ComesBefore(ms[i].name, ms[j].name)
    {
      LessIsBefore(ms[i].name, ms[j].name);
    }
  }

  predicate DistinctNames(ms: seq<Member>) {
    forall i, j :: 0 <= i < j < |ms| ==> ms[i].name != ms[j].name
  }

  lemma {:induction false} InsertKeeps(m: Member, ms: seq<Member>)
    ensures forall x :: x in Insert(m, ms) <==> x == m || x in ms
  {
    hide Less;
    if ms != [] && Less(ms[0].name, m.name) {
      InsertKeeps(m, ms[1..]);
      assert ms == [ms[0]] + ms[1..];
    }
  }

  lemma {:induction false} SortKeeps(ms: seq<Member>)
    ensures forall x :: x in SortMembers(ms) <==> x in ms
  {
    hide Insert;
    if ms != [] {
      SortKeeps(ms[1..]);
      InsertKeeps(ms[0], SortMembers(ms[1..]));
      assert ms == [ms[0]] + ms[1..];
    }
  }

  lemma {:induction false} InsertAscends(m: Member, ms: seq<Member>)
    requires Ascending(ms) && forall x :: x in ms ==> x.name != m.name
    ensures Ascending(Insert(m, ms))
  {
    hide Less;
    if ms == [] {
    } else if Less(ms[0].name, m.name) {
      var rest := Insert(m, ms[1..]);
      InsertAscends(m, ms[1..]);
      InsertKeeps(m, ms[1..]);
      forall j | 0 <= j < |rest|
        ensures Less(ms[0].name, rest[j].name)
      {
        assert rest[j] in rest;
      }
    } else {
      LessIsTotal(m.name, ms[0].name);
      assert ms[0] in ms;
      forall j | 0 <= j < |ms|
        ensures Less(m.name, ms[j].name)
      {
        if j > 0 { LessIsTransitive(m.name, ms[0].name, ms[j].name); }
      }
    }
  }

  lemma {:induction false} SortAscends(ms: seq<Member>)
    requires DistinctNames(ms)
    ensures Ascending(SortMembers(ms))
  {
    hide Less, Insert;
    if ms != [] {
      SortAscends(ms[1..]);
      SortKeeps(ms[1..]);
      InsertAscends(ms[0], SortMembers(ms[1..]));
    }
  }

  /** Two ascending lists with the same members are the same list. */
  lemma {:induction false} AscendingIsUnique(xs: seq<Member>, ys: seq<Member>)
    requires Ascending(xs) && Ascending(ys) && forall m :: m in xs <==> m in ys
    ensures xs == ys
  {
    hide Less;
    if xs == [] {
      HasMember(ys);
    } else {
      assert xs[0] in xs;
      assert ys != [];
      assert ys[0] in ys && ys[0] in xs && xs[0] in ys;
      var i :| 0 <= i < |ys| && ys[i] == xs[0];
      var j :| 0 <= j < |xs| && xs[j] == ys[0];
      LessIsTotal(xs[0].name, ys[0].name);
      assert xs[0] == ys[0];
      TailMembers(xs);
      TailMembers(ys);
      AscendingIsUnique(xs[1..], ys[1..]);
      assert xs == [xs[0]] + xs[1..] && ys == [ys[0]] + ys[1..];
    }
  }

  lemma HasMember(ys: seq<Member>)
    ensures ys == [] || exists m :: m in ys
  {
    if ys != [] { assert ys[0] in ys; }
  }

  lemma TailMembers(xs: seq<Member>)
    requires Ascending(xs) && xs != []
    ensures Ascending(xs[1..]) && forall m :: m in xs[1..] <==> m in xs && m != xs[0]
  {
    hide Less;
    assert xs == [xs[0]] + xs[1..];
    forall m | m in xs[1..]
      ensures m != xs[0]
    {
      var i :| 0 <= i < |xs[1..]| && xs[1..][i] == m;
      assert m == xs[i + 1];
      LessIsTotal(xs[0].name, m.name);
    }
  }

  // ---------------------------------------------------------------- the canonical form

  function Canonical(v: Json): Json
    decreases v, 1
  {
    match v
    case Array(items) => Array(CanonicalItems(items))
    case Object(members) => Object(SortMembers(CanonicalMembers(members)))
    case _ => v
  }

  function CanonicalItems(items: seq<Json>): (r: seq<Json>)
    ensures |r| == |items| && forall i :: 0 <= i < |items| ==> r[i] == Canonical(items[i])
    decreases items, 0
  {
    if items == [] then [] else [Canonical(items[0])] + CanonicalItems(items[1..])
  }

  function CanonicalMembers(ms: seq<Member>): (r: seq<Member>)
    ensures |r| == |ms| && forall i :: 0 <= i < |ms| ==> r[i] == Member(ms[i].name, Canonical(ms[i].value))
    decreases ms, 0
  {
    if ms == [] then [] else [Member(ms[0].name, Canonical(ms[0].value))] + CanonicalMembers(ms[1..])
  }

  /** Member names are unique in every object, at every depth. */
  predicate UniqueNames(v: Json) {
    match v
    case Array(items) => forall i :: 0 <= i < |items| ==> UniqueNames(items[i])
    case Object(ms) => DistinctNames(ms) && forall i :: 0 <= i < |ms| ==> UniqueNames(ms[i].value)
    case _ => true
  }

  /** Members are in ascending order in every object, at every depth. */
  ghost predicate AllAscending(v: Json) {
    match v
    case Array(items) => forall i :: 0 <= i < |items| ==> AllAscending(items[i])
    case Object(ms) => InOrder(ms) && forall i :: 0 <= i < |ms| ==> AllAscending(ms[i].value)
    case _ => true
  }

  /** The two values differ at most in the order of members, at any depth. */
  ghost predicate SameUpToOrder(a: Json, b: Json)
    decreases a, 0
  {
    match (a, b)
    case (Array(xs), Array(ys)) => |xs| == |ys| && forall i :: 0 <= i < |xs| ==> SameUpToOrder(xs[i], ys[i])
    case (Object(ms), Object(ns)) =>
      && (forall i :: 0 <= i < |ms| ==> HasMatch(ms[i], ns))
      && (forall j :: 0 <= j < |ns| ==> IsMatched(ms, ns[j]))
    case _ => a == b && !a.Array? && !a.Object?
  }

  /** Members of one name whose values differ at most in member order. */
  ghost predicate Matches(m: Member, n: Member)
    decreases m, 1
  {
    m.name == n.name && SameUpToOrder(m.value, n.value)
  }

  ghost predicate HasMatch(m: Member, ns: seq<Member>)
    decreases m, 2
  {
    exists j :: 0 <= j < |ns| && Matches(m, ns[j])
  }

  ghost predicate IsMatched(ms: seq<Member>, n: Member)
    decreases ms, 2
  {
    exists i :: 0 <= i < |ms| && Matches(ms[i], n)
  }

  function FormOf(m: Member): Member {
    Member(m.name, Canonical(m.value))
  }

  /** The canonical forms of a list's members, rearranged. */
  ghost predicate Rearranged(ms: seq<Member>, sorted: seq<Member>) {
    && (forall i :: 0 <= i < |ms| ==> FormOf(ms[i]) in sorted)
    && (forall x :: x in sorted ==> IsFormIn(ms, x))
  }

  ghost predicate IsFormIn(ms: seq<Member>, x: Member) {
    exists i :: 0 <= i < |ms| && FormOf(ms[i]) == x
  }

  lemma FormIsRearranged(ms: seq<Member>)
    ensures Rearranged(ms, SortMembers(CanonicalMembers(ms)))
  {
    hide Canonical, SortMembers, CanonicalMembers;
    SortKeeps(CanonicalMembers(ms));
    forall i | 0 <= i < |ms|
      ensures FormOf(ms[i]) in CanonicalMembers(ms)
    {
      assert CanonicalMembers(ms)[i] == FormOf(ms[i]);
    }
    forall x | x in CanonicalMembers(ms)
      ensures IsFormIn(ms, x)
    {
      var i :| 0 <= i < |ms| && CanonicalMembers(ms)[i] == x;
      assert FormOf(ms[i]) == x;
    }
  }

  lemma CanonicalNames(ms: seq<Member>)
    requires DistinctNames(ms)
    ensures DistinctNames(CanonicalMembers(ms))
    ensures Ascending(SortMembers(CanonicalMembers(ms)))
    ensures forall x :: x in SortMembers(CanonicalMembers(ms)) <==> x in CanonicalMembers(ms)
  {
    hide Canonical, CanonicalMembers, SortMembers, Ascending;
    SortAscends(CanonicalMembers(ms));
    SortKeeps(CanonicalMembers(ms));
  }

  /** Values that differ only in member order have one canonical form. */
  lemma {:induction false} SameOrderSameForm(a: Json, b: Json)
    requires UniqueNames(a) && UniqueNames(b) && SameUpToOrder(a, b)
    ensures Canonical(a) == Canonical(b)
    decreases a, 2
  {
    match a
    case Array(xs) =>
      forall i | 0 <= i < |xs|
        ensures Canonical(xs[i]) == Canonical(b.items[i])
      {
        SameOrderSameForm(xs[i], b.items[i]);
      }
    case Object(ms) =>
      MembersSameForm(ms, b.members);
    case _ =>
  }

  lemma {:induction false} MembersSameForm(ms: seq<Member>, ns: seq<Member>)
    requires DistinctNames(ms) && DistinctNames(ns)
    requires forall i :: 0 <= i < |ms| ==> UniqueNames(ms[i].value)
    requires forall j :: 0 <= j < |ns| ==> UniqueNames(ns[j].value)
    requires forall i :: 0 <= i < |ms| ==> HasMatch(ms[i], ns)
    requires forall j :: 0 <= j < |ns| ==> IsMatched(ms, ns[j])
    ensures SortMembers(CanonicalMembers(ms)) == SortMembers(CanonicalMembers(ns))
    decreases ms, 1
  {
    hide *;
    FormsCarryOver(ms, ns);
    FormsComeBack(ms, ns);
    CanonicalNames(ms);
    CanonicalNames(ns);
    SameMembersSameForm(CanonicalMembers(ms), CanonicalMembers(ns));
  }

  lemma {:induction false} FormsCarryOver(ms: seq<Member>, ns: seq<Member>)
    requires forall i :: 0 <= i < |ms| ==> UniqueNames(ms[i].value) && HasMatch(ms[i], ns)
    requires forall j :: 0 <= j < |ns| ==> UniqueNames(ns[j].value)
    ensures forall i :: 0 <= i < |ms| ==> CanonicalMembers(ms)[i] in CanonicalMembers(ns)
    decreases ms, 0
  {
    hide SameUpToOrder, UniqueNames, Canonical, CanonicalMembers;
    var xs, ys := CanonicalMembers(ms), CanonicalMembers(ns);
    forall i | 0 <= i < |xs|
      ensures xs[i] in ys
    {
      assert HasMatch(ms[i], ns);
      var j :| 0 <= j < |ns| && Matches(ms[i], ns[j]);
      SameOrderSameForm(ms[i].value, ns[j].value);
      assert ys[j] == xs[i];
    }
  }

  lemma {:induction false} FormsComeBack(ms: seq<Member>, ns: seq<Member>)
    requires forall i :: 0 <= i < |ms| ==> UniqueNames(ms[i].value)
    requires forall j :: 0 <= j < |ns| ==> UniqueNames(ns[j].value) && IsMatched(ms, ns[j])
    ensures forall j :: 0 <= j < |ns| ==> CanonicalMembers(ns)[j] in CanonicalMembers(ms)
    decreases ms, 0
  {
    hide SameUpToOrder, UniqueNames, Canonical, CanonicalMembers;
    var xs, ys := CanonicalMembers(ms), CanonicalMembers(ns);
    forall j | 0 <= j < |ys|
      ensures ys[j] in xs
    {
      assert IsMatched(ms, ns[j]);
      var i :| 0 <= i < |ms| && Matches(ms[i], ns[j]);
      SameOrderSameForm(ms[i].value, ns[j].value);
      assert xs[i] == ys[j];
    }
  }

  /** Lists with distinct names and the same members have the same sorted form. */
  lemma SameMembersSameForm(ms: seq<Member>, ns: seq<Member>)
    requires DistinctNames(ms) && DistinctNames(ns)
    requires forall i :: 0 <= i < |ms| ==> ms[i] in ns
    requires forall j :: 0 <= j < |ns| ==> ns[j] in ms
    ensures SortMembers(ms) == SortMembers(ns)
  {
    hide SortMembers, Less, Ascending, DistinctNames;
    SortKeeps(ms);
    SortKeeps(ns);
    SortAscends(ms);
    SortAscends(ns);
    AscendingIsUnique(SortMembers(ms), SortMembers(ns));
  }

  /** Values with one canonical form differ only in member order. */
  lemma {:induction false} SameFormSameUpToOrder(a: Json, b: Json)
    requires UniqueNames(a) && UniqueNames(b) && Canonical(a) == Canonical(b)
    ensures SameUpToOrder(a, b)
    decreases a, 1
  {
    match a
    case Array(xs) =>
      forall i | 0 <= i < |xs|
        ensures SameUpToOrder(xs[i], b.items[i])
      {
        assert CanonicalItems(xs)[i] == CanonicalItems(b.items)[i];
        SameFormSameUpToOrder(xs[i], b.items[i]);
      }
    case Object(ms) =>
      SameFormMembers(ms, b.members);
    case _ =>
  }

  lemma {:induction false} SameFormMembers(ms: seq<Member>, ns: seq<Member>)
    requires forall i :: 0 <= i < |ms| ==> UniqueNames(ms[i].value)
    requires forall j :: 0 <= j < |ns| ==> UniqueNames(ns[j].value)
    requires SortMembers(CanonicalMembers(ms)) == SortMembers(CanonicalMembers(ns))
    ensures forall i :: 0 <= i < |ms| ==> HasMatch(ms[i], ns)
    ensures forall j :: 0 <= j < |ns| ==> IsMatched(ms, ns[j])
    decreases ms, 0
  {
    hide SameUpToOrder, UniqueNames, Canonical, CanonicalMembers, SortMembers;
    FormIsRearranged(ms);
    FormIsRearranged(ns);
    forall i | 0 <= i < |ms|
      ensures HasMatch(ms[i], ns)
    {
      assert IsFormIn(ns, FormOf(ms[i]));
      var j :| 0 <= j < |ns| && FormOf(ns[j]) == FormOf(ms[i]);
      SameFormSameUpToOrder(ms[i].value, ns[j].value);
      assert Matches(ms[i], ns[j]);
    }
    forall j | 0 <= j < |ns|
      ensures IsMatched(ms, ns[j])
    {
      assert IsFormIn(ms, FormOf(ns[j]));
      var i :| 0 <= i < |ms| && FormOf(ms[i]) == FormOf(ns[j]);
      SameFormSameUpToOrder(ms[i].value, ns[j].value);
      assert Matches(ms[i], ns[j]);
    }
  }

  /** Canonical form: equal exactly for values that differ only in member order. */
  lemma CanonicalIffSameUpToOrder(a: Json, b: Json)
    requires UniqueNames(a) && UniqueNames(b)
    ensures Canonical(a) == Canonical(b) <==> SameUpToOrder(a, b)
  {
    hide Canonical, SameUpToOrder, UniqueNames;
    if SameUpToOrder(a, b) { SameOrderSameForm(a, b); }
    if Canonical(a) == Canonical(b) { SameFormSameUpToOrder(a, b); }
  }

  /** The canonical form is sorted at every depth and is the value itself up to member order. */
  lemma {:induction false} CanonicalIsSortedSelf(v: Json)
    requires UniqueNames(v)
    ensures UniqueNames(Canonical(v)) && AllAscending(Canonical(v)) && SameUpToOrder(v, Canonical(v))
    decreases v
  {
    match v
    case Array(xs) =>
      forall i | 0 <= i < |xs|
        ensures UniqueNames(Canonical(xs[i])) && AllAscending(Canonical(xs[i]))
              && SameUpToOrder(xs[i], Canonical(xs[i]))
      {
        CanonicalIsSortedSelf(xs[i]);
      }
    case Object(ms) =>
      forall i | 0 <= i < |ms|
        ensures GoodForm(ms[i].value)
      {
        CanonicalIsSortedSelf(ms[i].value);
      }
      CanonicalNames(ms);
      FormIsRearranged(ms);
      SortedObject(ms, SortMembers(CanonicalMembers(ms)));
    case _ =>
  }

  ghost predicate GoodForm(v: Json) {
    var c := Canonical(v);
    UniqueNames(c) && AllAscending(c) && SameUpToOrder(v, c)
  }

  lemma SortedObject(ms: seq<Member>, sorted: seq<Member>)
    requires Ascending(sorted) && Rearranged(ms, sorted)
    requires forall i :: 0 <= i < |ms| ==> GoodForm(ms[i].value)
    ensures UniqueNames(Object(sorted)) && AllAscending(Object(sorted)) && SameUpToOrder(Object(ms), Object(sorted))
  {
    hide Canonical, Less, GoodForm, Rearranged, HasMatch, IsMatched, ComesBefore;
    AscendingIsDistinct(sorted);
    AscendingIsInOrder(sorted);
    forall j | 0 <= j < |sorted|
      ensures UniqueNames(sorted[j].value) && AllAscending(sorted[j].value) && IsMatched(ms, sorted[j])
    {
      SortedMember(ms, sorted, j);
    }
    forall i | 0 <= i < |ms|
      ensures HasMatch(ms[i], sorted)
    {
      MemberIsSorted(ms, sorted, i);
    }
  }

  lemma AscendingIsDistinct(ms: seq<Member>)
    requires Ascending(ms)
    ensures DistinctNames(ms)
  {
    hide Less;
    forall i, j | 0 <= i < j < |ms|
      ensures ms[i].name != ms[j].name
    {
      LessIsTotal(ms[i].name, ms[j].name);
    }
  }

  lemma SortedMember(ms: seq<Member>, sorted: seq<Member>, j: nat)
    requires Rearranged(ms, sorted) && j < |sorted|
    requires forall i :: 0 <= i < |ms| ==> GoodForm(ms[i].value)
    ensures UniqueNames(sorted[j].value) && AllAscending(sorted[j].value) && IsMatched(ms, sorted[j])
  {
    hide Canonical, UniqueNames, AllAscending, SameUpToOrder;
    assert IsFormIn(ms, sorted[j]);
    var i :| 0 <= i < |ms| && FormOf(ms[i]) == sorted[j];
    assert GoodForm(ms[i].value);
    assert Matches(ms[i], sorted[j]);
  }

  lemma MemberIsSorted(ms: seq<Member>, sorted: seq<Member>, i: nat)
    requires Rearranged(ms, sorted) && i < |ms| && GoodForm(ms[i].value)
    ensures HasMatch(ms[i], sorted)
  {
    hide Canonical, UniqueNames, AllAscending, SameUpToOrder;
    assert FormOf(ms[i]) in sorted;
    var j :| 0 <= j < |sorted| && sorted[j] == FormOf(ms[i]);
    assert Matches(ms[i], sorted[j]);
  }

  lemma CanonicalIsIdempotent(v: Json)
    requires UniqueNames(v)
    ensures Canonical(Canonical(v)) == Canonical(v)
  {
    hide Canonical, SameUpToOrder, UniqueNames;
    CanonicalIsSortedSelf(v);
    SameOrderSameForm(v, Canonical(v));
  }

  /** An object in an array in an object: names are sorted at both depths, and the array stays as it is. */
  lemma CanonicalExample()
    ensures var v := Object([Member("b", Array([Object([Member("d", Null), Member("c", Bool(true))]), Number("1")])),
                             Member("a", String("x"))]);
            && UniqueNames(v)
            && Canonical(v) == Object([Member("a", String("x")),
                 Member("b", Array([Object([Member("c", Bool(true)), Member("d", Null)]), Number("1")]))])
  {
    hide SortMembers, CanonicalMembers, Insert, Less;
    var d, c, x := Member("d", Null), Member("c", Bool(true)), Member("a", String("x"));
    var inner, one := Object([d, c]), Number("1");
    PairIsSorted(d, c);
    assert FormOf(d) == d && FormOf(c) == c && UniqueNames(inner);
    var list := Array([inner, one]);
    ListOfTwo(inner, one);
    assert UniqueNames(list);
    PairIsSorted(Member("b", list), x);
    assert FormOf(x) == x && UniqueNames(Object([Member("b", list), x]));
  }

  lemma ListOfTwo(v: Json, w: Json)
    ensures Canonical(Array([v, w])) == Array([Canonical(v), Canonical(w)])
  {
    hide SortMembers, CanonicalMembers;
    assert CanonicalItems([v, w]) == [Canonical(v), Canonical(w)];
  }

  /** Two members in descending order change places. */
  lemma PairIsSorted(m: Member, n: Member)
    requires |m.name| == 1 && |n.name| == 1 && n.name[0] < m.name[0]
    ensures Canonical(Object([m, n])) == Object([FormOf(n), FormOf(m)])
  {
    var a, b := FormOf(m), FormOf(n);
    assert [m, n][1..] == [n] && [n][1..] == [];
    assert CanonicalMembers([m, n]) == [a, b];
    assert [a, b][1..] == [b] && [b][1..] == [];
    assert SortMembers([b]) == Insert(b, []) == [b];
    assert Insert(a, [b]) == [b] + Insert(a, []) == [b, a];
  }

  // ---------------------------------------------------------------- the recursive procedure

  function Names(ms: seq<Member>): (r: seq<string>)
    ensures |r| == |ms| && forall i :: 0 <= i < |ms| ==> r[i] == ms[i].name
  {
    if ms == [] then [] else [ms[0].name] + Names(ms[1..])
  }

  /** `keys.sort()`. */
  function InsertName(name: string, names: seq<string>): seq<string> {
    if names != [] && Less(names[0], name) then [names[0]] + InsertName(name, names[1..]) else [name] + names
  }

  function SortNames(names: seq<string>): seq<string> {
    if names == [] then [] else InsertName(names[0], SortNames(names[1..]))
  }

  lemma {:induction false} InsertNames(m: Member, ms: seq<Member>)
    ensures Names(Insert(m, ms)) == InsertName(m.name, Names(ms))
  {
    hide Less;
    if ms != [] {
      InsertNames(m, ms[1..]);
      assert Names(ms)[1..] == Names(ms[1..]);
    }
  }

  lemma {:induction false} SortsAgree(ms: seq<Member>)
    ensures Names(SortMembers(ms)) == SortNames(Names(ms))
  {
    hide Less;
    if ms != [] {
      SortsAgree(ms[1..]);
      InsertNames(ms[0], SortMembers(ms[1..]));
      assert Names(ms)[1..] == Names(ms[1..]);
    }
  }

  predicate HasName(ms: seq<Member>, name: string) {
    exists j :: 0 <= j < |ms| && ms[j].name == name
  }

  /** `map[key]`. */
  method IndexOfName(ms: seq<Member>, name: string) returns (i: nat)
    requires HasName(ms, name)
    ensures i < |ms| && ms[i].name == name
  {
    i := 0;
    while ms[i].name != name
      invariant i < |ms|
      invariant exists j :: i <= j < |ms| && ms[j].name == name
      decreases |ms| - i
    {
      i := i + 1;
    }
  }

  /** `sort_json_keys`: sort the keys, then rebuild the object in that order from the sorted values. */
  method SortJsonKeys(v: Json) returns (r: Json)
    requires UniqueNames(v)
    ensures r == Canonical(v)
    ensures UniqueNames(r) && AllAscending(r) && SameUpToOrder(v, r)
    decreases v
  {
    hide SortNames, Names, SortMembers, CanonicalMembers, CanonicalItems, AllAscending, SameUpToOrder;
    CanonicalIsSortedSelf(v);
    match v
    case Object(members) =>
      var keys := SortNames(Names(members));
      ghost var sorted := SortMembers(CanonicalMembers(members));
      KeysOfForm(members, keys, sorted);
      var built: seq<Member> := [];
      for i := 0 to |keys|
        invariant built == sorted[..i]
      {
        var j := IndexOfName(members, keys[i]);
        var value := SortJsonKeys(members[j].value);
        ValueOfForm(members, sorted, i, j);
        built := built + [Member(keys[i], value)];
      }
      r := Object(built);
    case Array(items) =>
      var built: seq<Json> := [];
      for i := 0 to |items|
        invariant built == CanonicalItems(items)[..i]
      {
        var item := SortJsonKeys(items[i]);
        built := built + [item];
      }
      r := Array(built);
    case _ =>
      r := v;
  }

  lemma KeysOfForm(ms: seq<Member>, keys: seq<string>, sorted: seq<Member>)
    requires keys == SortNames(Names(ms)) && sorted == SortMembers(CanonicalMembers(ms))
    ensures |keys| == |sorted| && forall i :: 0 <= i < |keys| ==> keys[i] == sorted[i].name
    ensures forall i :: 0 <= i < |keys| ==> HasName(ms, keys[i])
  {
    hide SortNames, SortMembers, Canonical, CanonicalMembers, Names, HasName;
    SameNames(CanonicalMembers(ms), ms);
    SortsAgree(CanonicalMembers(ms));
    assert keys == Names(sorted);
    forall i | 0 <= i < |keys|
      ensures HasName(ms, keys[i])
    {
      NameOfForm(ms, sorted, i);
    }
  }

  lemma SameNames(ms: seq<Member>, ns: seq<Member>)
    requires |ms| == |ns| && forall i :: 0 <= i < |ms| ==> ms[i].name == ns[i].name
    ensures Names(ms) == Names(ns)
  {
    hide Names;
    assert Names(ms) == Names(ns);
  }

  lemma NameOfForm(ms: seq<Member>, sorted: seq<Member>, i: nat)
    requires sorted == SortMembers(CanonicalMembers(ms)) && i < |sorted|
    ensures HasName(ms, sorted[i].name)
  {
    hide SortMembers, Canonical, CanonicalMembers;
    FormIsRearranged(ms);
    assert IsFormIn(ms, sorted[i]);
    var j :| 0 <= j < |ms| && FormOf(ms[j]) == sorted[i];
    assert ms[j].name == sorted[i].name;
  }

  lemma ValueOfForm(ms: seq<Member>, sorted: seq<Member>, i: nat, j: nat)
    requires DistinctNames(ms) && sorted == SortMembers(CanonicalMembers(ms))
    requires i < |sorted| && j < |ms| && ms[j].name == sorted[i].name
    ensures sorted[i] == Member(ms[j].name, Canonical(ms[j].value))
  {
    hide SortMembers, Canonical, CanonicalMembers;
    FormIsRearranged(ms);
    assert IsFormIn(ms, sorted[i]);
    var k :| 0 <= k < |ms| && FormOf(ms[k]) == sorted[i];
    assert k == j;
  }
}
