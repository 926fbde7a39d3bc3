// The canonical JSON text of tool arguments: objects with their keys sorted,
// everything else as the serializer prints it.
module CanonicalJson {
  import opened Wrappers
  import opened JsonTexts
  import opened Texts
  import Sorting

  // ----------------------------------------------------------------- key order

  /** The order of strings by their characters' code points. */
  predicate AtMost(a: string, b: string) {
    if a == "" then true
    else if b == "" then false
    else a[0] < b[0] || (a[0] == b[0] && AtMost(a[1..], b[1..]))
  }

  predicate KeyAtMost<V>(a: Member<V>, b: Member<V>) {
    AtMost(a.key, b.key)
  }

  /** One key is the beginning of the other, or is smaller where they first differ. */
  ghost predicate Precedes(a: string, b: string) {
    exists n :: 0 <= n <= |a| && n <= |b| && Agree(a, b, n) && (n == |a| || (n < |b| && a[n] < b[n]))
  }

  predicate Agree(a: string, b: string, n: nat)
    requires n <= |a| && n <= |b|
  {
    forall i :: 0 <= i < n ==> a[i] == b[i]
  }

  lemma PrecedesLater(a: string, b: string)
    requires a != "" && b != "" && a[0] == b[0]
    ensures Precedes(a, b) <==> Precedes(a[1..], b[1..])
  {
    var a', b' := a[1..], b[1..];
    assert forall i :: 0 <= i < |a'| ==> a'[i] == a[i + 1];
    assert forall i :: 0 <= i < |b'| ==> b'[i] == b[i + 1];
    if n :| 0 <= n <= |a'| && n <= |b'| && Agree(a', b', n) && (n == |a'| || (n < |b'| && a'[n] < b'[n])) {
      assert forall i :: 1 <= i < n + 1 ==> a[i] == a'[i - 1] && b[i] == b'[i - 1];
      assert Agree(a, b, n + 1);
    }
    if n :| 0 <= n <= |a| && n <= |b| && Agree(a, b, n) && (n == |a| || (n < |b| && a[n] < b[n])) && n > 0 {
      assert Agree(a', b', n - 1);
    }
  }

  lemma PrecedesAtOnce(a: string, b: string)
    requires a == "" || b == "" || a[0] != b[0]
    ensures Precedes(a, b) <==> a == "" || (b != "" && a[0] < b[0])
  {
    assert Agree(a, b, 0);
    AgreedStart(a, b);
  }

  lemma AgreedStart(a: string, b: string)
    ensures forall n :: 0 < n <= |a| && n <= |b| && Agree(a, b, n) ==> a[0] == b[0]
  {
  }

  lemma {:induction false} AtMostMeans(a: string, b: string)
    ensures AtMost(a, b) <==> Precedes(a, b)
  {
    hide Precedes;
    if a == "" || b == "" || a[0] != b[0] {
      PrecedesAtOnce(a, b);
    } else {
      PrecedesLater(a, b);
      AtMostMeans(a[1..], b[1..]);
    }
  }

  lemma {:induction false} AtMostTotal(a: string, b: string)
    ensures AtMost(a, b) || AtMost(b, a)
    ensures AtMost(a, b) && AtMost(b, a) ==> a == b
  {
    if a != "" && b != "" && a[0] == b[0] {
      AtMostTotal(a[1..], b[1..]);
      assert a == [a[0]] + a[1..] && b == [b[0]] + b[1..];
    }
  }

  lemma {:induction false} AtMostTransitive(a: string, b: string, c: string)
    requires AtMost(a, b) && AtMost(b, c)
    ensures AtMost(a, c)
  {
    if a != "" && a[0] == b[0] && b[0] == c[0] {
      AtMostTransitive(a[1..], b[1..], c[1..]);
    }
  }

  lemma KeysAreOrdered<V(!new)>()
    ensures Sorting.TotalPreorder<Member<V>>(KeyAtMost)
  {
    forall x: Member<V>, y: Member<V> ensures KeyAtMost(x, y) || KeyAtMost(y, x) {
      AtMostTotal(x.key, y.key);
    }
    forall x: Member<V>, y: Member<V>, z: Member<V> | KeyAtMost(x, y) && KeyAtMost(y, z) ensures KeyAtMost(x, z) {
      AtMostTransitive(x.key, y.key, z.key);
    }
  }

  // ----------------------------------------------------------------- the printer

  function CompactMember(m: Member<string>): string {
    Quoted(m.key) + ":" + m.value
  }

  function Canonical(v: Json): string {
    match v
    case Null => "null"
    case Bool(flag) => if flag then "true" else "false"
    case Number(token) => token
    case Str(text) => Quoted(text)
    case Array(items) =>
      "[" + Join(seq(|items|, i requires 0 <= i < |items| => Canonical(items[i])), ",") + "]"
    case Object(members) =>
      var texts := seq(|members|, i requires 0 <= i < |members| => Member(members[i].key, Canonical(members[i].value)));
      "{" + Join(Sorting.Map(Sorting.Sort(texts, KeyAtMost), CompactMember), ",") + "}"
  }

  /** The same value with the keys of all its objects sorted. */
  function Normalize(v: Json): Json {
    match v
    case Array(items) => Array(NormalItems(items))
    case Object(members) => Object(Sorting.Sort(NormalMembers(members), KeyAtMost))
    case _ => v
  }

  function NormalItems(items: seq<Json>): (r: seq<Json>)
    ensures |r| == |items|
    ensures forall i :: 0 <= i < |items| ==> r[i] == Normalize(items[i])
  {
    seq(|items|, i requires 0 <= i < |items| => Normalize(items[i]))
  }

  function NormalMembers(members: seq<Member<Json>>): (r: seq<Member<Json>>)
    ensures |r| == |members|
    ensures forall i :: 0 <= i < |members| ==> r[i] == Member(members[i].key, Normalize(members[i].value))
  {
    seq(|members|, i requires 0 <= i < |members| => Member(members[i].key, Normalize(members[i].value)))
  }

  /** Prints a value as it stands, without spaces. */
  function Compact(v: Json): string {
    Spaced(v, "")
  }

  lemma {:induction false} CanonicalIsCompact(v: Json)
    ensures Canonical(v) == Compact(Normalize(v))
  {
    assert "," + "" == ",";
    match v
    case Array(items) =>
      forall i | 0 <= i < |items| ensures Canonical(items[i]) == Compact(Normalize(items[i])) {
        CanonicalIsCompact(items[i]);
      }
      assert seq(|items|, i requires 0 <= i < |items| => Canonical(items[i])) == SpacedItems(Normalize(v).items, "");
    case Object(members) =>
      forall i | 0 <= i < |members| ensures Canonical(members[i].value) == Compact(Normalize(members[i].value)) {
        CanonicalIsCompact(members[i].value);
      }
      SortedTexts(members);
    case _ =>
  }

  function CompactPrinted(m: Member<Json>): Member<string> {
    Member(m.key, Compact(m.value))
  }

  lemma SortedTexts(members: seq<Member<Json>>)
    requires forall i :: 0 <= i < |members| ==> Canonical(members[i].value) == Compact(Normalize(members[i].value))
    ensures Canonical(Object(members)) == Compact(Normalize(Object(members)))
  {
    assert "," + "" == "," && ":" + "" == ":";
    var texts := seq(|members|, i requires 0 <= i < |members| => Member(members[i].key, Canonical(members[i].value)));
    var normal := NormalMembers(members);
    assert texts == Sorting.Map(normal, CompactPrinted);
    Sorting.SortMap(normal, CompactPrinted, KeyAtMost, KeyAtMost);
    var sorted := Sorting.Sort(normal, KeyAtMost);
    assert Sorting.Map(Sorting.Map(sorted, CompactPrinted), CompactMember) == SpacedMembers(sorted, "");
  }

  // --------------------------------------------------- equality up to key order

  /** The same value but for the order in which objects list their members. */
  ghost predicate SameUpToOrder(a: Json, b: Json) {
    match (a, b)
    case (Array(xs), Array(ys)) =>
      |xs| == |ys| && forall i :: 0 <= i < |xs| ==> SameUpToOrder(xs[i], ys[i])
    case (Object(xs), Object(ys)) => |xs| == |ys| && forall i :: 0 <= i < |xs| ==> HasMember(xs[i], ys)
    case _ => a == b && !a.Array? && !a.Object?
  }

  ghost predicate HasMember(x: Member<Json>, ys: seq<Member<Json>>)
    decreases x
  {
    exists j :: 0 <= j < |ys| && x.key == ys[j].key && SameUpToOrder(x.value, ys[j].value)
  }

  lemma {:induction false} NormalizeKeepsShape(v: Json)
    requires WellFormed(v)
    ensures WellFormed(Normalize(v))
  {
    match v
    case Array(items) =>
      forall i | 0 <= i < |items| ensures WellFormed(Normalize(items[i])) {
        NormalizeKeepsShape(items[i]);
      }
    case Object(members) =>
      var normal := NormalMembers(members);
      forall i | 0 <= i < |members| ensures WellFormed(normal[i].value) {
        NormalizeKeepsShape(members[i].value);
      }
      SortedKeepsMembers(normal);
    case _ =>
  }

  lemma SortedKeepsMembers(members: seq<Member<Json>>)
    requires DistinctKeys(members) && forall i :: 0 <= i < |members| ==> WellFormed(members[i].value)
    ensures var sorted := Sorting.Sort(members, KeyAtMost);
            DistinctKeys(sorted) && forall i :: 0 <= i < |sorted| ==> WellFormed(sorted[i].value)
  {
    var sorted := Sorting.Sort(members, KeyAtMost);
    Sorting.SameElements(members, sorted);
    assert Sorting.Distinct(members);
    Sorting.DistinctSame(members, sorted);
    forall i | 0 <= i < |sorted| ensures WellFormed(sorted[i].value) {
      assert sorted[i] in sorted;
    }
    forall i, j | 0 <= i < j < |sorted| ensures sorted[i].key != sorted[j].key {
      assert sorted[i] in sorted && sorted[j] in sorted;
      var a :| 0 <= a < |members| && members[a] == sorted[i];
      var b :| 0 <= b < |members| && members[b] == sorted[j];
      assert a < b || b < a;
    }
  }

  /** Members with distinct keys sort to the same list exactly when they are the
      same members. */
  lemma SameSorted(xs: seq<Member<Json>>, ys: seq<Member<Json>>)
    requires DistinctKeys(xs) && DistinctKeys(ys) && |xs| == |ys|
    requires forall x :: x in xs ==> x in ys
    ensures Sorting.Sort(xs, KeyAtMost) == Sorting.Sort(ys, KeyAtMost)
  {
    assert Sorting.Distinct(xs);
    Sorting.DistinctWithin(xs, ys);
    KeysAreOrdered<Json>();
    Sorting.SortSorted(xs, KeyAtMost);
    Sorting.SortSorted(ys, KeyAtMost);
    var s := Sorting.Sort(xs, KeyAtMost);
    Sorting.SameElements(xs, s);
    forall x, y | x in s && y in s && KeyAtMost(x, y) && KeyAtMost(y, x) ensures x == y {
      AtMostTotal(x.key, y.key);
    }
    Sorting.StrictlySortedUnique(s, Sorting.Sort(ys, KeyAtMost), KeyAtMost);
  }

  /** Normalizing forgets exactly the order of the keys. */
  lemma {:induction false} NormalizeForgetsOrder(a: Json, b: Json)
    requires WellFormed(a) && WellFormed(b)
    ensures Normalize(a) == Normalize(b) <==> SameUpToOrder(a, b)
    decreases a
  {
    match (a, b)
    case (Array(xs), Array(ys)) =>
      forall i, j | 0 <= i < |xs| && 0 <= j < |ys|
        ensures Normalize(xs[i]) == Normalize(ys[j]) <==> SameUpToOrder(xs[i], ys[j])
      {
        NormalizeForgetsOrder(xs[i], ys[j]);
      }
      ArraysForgetOrder(xs, ys);
    case (Object(xs), Object(ys)) =>
      forall i, j | 0 <= i < |xs| && 0 <= j < |ys|
        ensures Normalize(xs[i].value) == Normalize(ys[j].value) <==> SameUpToOrder(xs[i].value, ys[j].value)
      {
        NormalizeForgetsOrder(xs[i].value, ys[j].value);
      }
      ObjectsForgetOrder(xs, ys);
    case _ =>
  }

  lemma ArraysForgetOrder(xs: seq<Json>, ys: seq<Json>)
    requires forall i, j :: 0 <= i < |xs| && 0 <= j < |ys| ==> (Normalize(xs[i]) == Normalize(ys[j]) <==> SameUpToOrder(xs[i], ys[j]))
    ensures Normalize(Array(xs)) == Normalize(Array(ys)) <==> SameUpToOrder(Array(xs), Array(ys))
  {
    var nx, ny := Normalize(Array(xs)).items, Normalize(Array(ys)).items;
    assert |nx| == |xs| && |ny| == |ys|;
    assert forall i :: 0 <= i < |nx| ==> nx[i] == Normalize(xs[i]);
    assert forall i :: 0 <= i < |ny| ==> ny[i] == Normalize(ys[i]);
    if SameUpToOrder(Array(xs), Array(ys)) {
      assert nx == ny;
    }
  }

  lemma NormalObject(members: seq<Member<Json>>)
    ensures Normalize(Object(members)) == Object(Sorting.Sort(NormalMembers(members), KeyAtMost))
  {
  }

  lemma ObjectsForgetOrder(xs: seq<Member<Json>>, ys: seq<Member<Json>>)
    requires DistinctKeys(xs) && DistinctKeys(ys)
    requires forall i, j :: 0 <= i < |xs| && 0 <= j < |ys| ==>
                              (Normalize(xs[i].value) == Normalize(ys[j].value) <==> SameUpToOrder(xs[i].value, ys[j].value))
    ensures Normalize(Object(xs)) == Normalize(Object(ys)) <==> SameUpToOrder(Object(xs), Object(ys))
  {
    hide Normalize, WellFormed;
    NormalObject(xs);
    NormalObject(ys);
    Sorting.SortKeepsElements(NormalMembers(xs), KeyAtMost);
    Sorting.SortKeepsElements(NormalMembers(ys), KeyAtMost);
    if Normalize(Object(xs)) == Normalize(Object(ys)) {
      EqualNormals(xs, ys);
    }
    if SameUpToOrder(Object(xs), Object(ys)) {
      EqualMembers(xs, ys);
    }
  }

  lemma EqualNormals(xs: seq<Member<Json>>, ys: seq<Member<Json>>)
    requires |xs| == |ys| && forall x :: x in NormalMembers(xs) ==> x in NormalMembers(ys)
    requires forall i, j :: 0 <= i < |xs| && 0 <= j < |ys| ==>
                              (Normalize(xs[i].value) == Normalize(ys[j].value) <==> SameUpToOrder(xs[i].value, ys[j].value))
    ensures SameUpToOrder(Object(xs), Object(ys))
  {
    hide Normalize;
    var nx, ny := NormalMembers(xs), NormalMembers(ys);
    forall i | 0 <= i < |xs| ensures HasMember(xs[i], ys) {
      assert nx[i] in nx && nx[i] in ny;
      var j :| 0 <= j < |ny| && ny[j] == nx[i];
      assert xs[i].key == ys[j].key && SameUpToOrder(xs[i].value, ys[j].value);
    }
  }

  lemma EqualMembers(xs: seq<Member<Json>>, ys: seq<Member<Json>>)
    requires DistinctKeys(xs) && DistinctKeys(ys)
    requires forall i, j :: 0 <= i < |xs| && 0 <= j < |ys| ==>
                              (Normalize(xs[i].value) == Normalize(ys[j].value) <==> SameUpToOrder(xs[i].value, ys[j].value))
    requires SameUpToOrder(Object(xs), Object(ys))
    ensures Sorting.Sort(NormalMembers(xs), KeyAtMost) == Sorting.Sort(NormalMembers(ys), KeyAtMost)
  {
    hide Normalize;
    var nx, ny := NormalMembers(xs), NormalMembers(ys);
    forall x | x in nx ensures x in ny {
      var i :| 0 <= i < |nx| && nx[i] == x;
      assert HasMember(xs[i], ys);
      var j :| 0 <= j < |ys| && xs[i].key == ys[j].key && SameUpToOrder(xs[i].value, ys[j].value);
      assert ny[j] == x;
    }
    SameSorted(nx, ny);
  }

  /** The keys of every object come in ascending order, and no member is lost or
      changed but for the order of keys inside it. */
  lemma KeysAscend(members: seq<Member<Json>>)
    requires DistinctKeys(members)
    ensures Normalize(Object(members)).Object?
    ensures var sorted := Normalize(Object(members)).members;
            && |sorted| == |members|
            && (forall i, j :: 0 <= i < j < |sorted| ==> sorted[i].key != sorted[j].key && Precedes(sorted[i].key, sorted[j].key))
            && forall m :: m in sorted <==> exists i :: 0 <= i < |members| && m == Member(members[i].key, Normalize(members[i].value))
  {
    hide Normalize, Precedes, Sorting.Sort, KeyAtMost;
    NormalObject(members);
    var normal := NormalMembers(members);
    var sorted := Sorting.Sort(normal, KeyAtMost);
    Sorting.SortKeepsElements(normal, KeyAtMost);
    Sorting.SameElements(normal, sorted);
    SortedKeysAscend(normal);
    forall m ensures m in sorted <==> exists i :: 0 <= i < |members| && m == Member(members[i].key, Normalize(members[i].value)) {
      if m in sorted {
        var i :| 0 <= i < |normal| && normal[i] == m;
      }
      if i :| 0 <= i < |members| && m == Member(members[i].key, Normalize(members[i].value)) {
        assert normal[i] == m;
      }
    }
  }

  lemma SortedKeysAscend(members: seq<Member<Json>>)
    requires DistinctKeys(members)
    ensures var sorted := Sorting.Sort(members, KeyAtMost);
            forall i, j :: 0 <= i < j < |sorted| ==> sorted[i].key != sorted[j].key && Precedes(sorted[i].key, sorted[j].key)
  {
    hide Precedes, AtMost, Sorting.Sort;
    var sorted := Sorting.Sort(members, KeyAtMost);
    KeysAreOrdered<Json>();
    Sorting.SortSorted(members, KeyAtMost);
    Sorting.SortKeepsElements(members, KeyAtMost);
    Sorting.SameElements(members, sorted);
    assert Sorting.Distinct(members);
    Sorting.DistinctSame(members, sorted);
    forall i, j | 0 <= i < j < |sorted| ensures sorted[i].key != sorted[j].key && Precedes(sorted[i].key, sorted[j].key) {
      assert KeyAtMost(sorted[i], sorted[j]);
      AtMostMeans(sorted[i].key, sorted[j].key);
      assert sorted[i] in members && sorted[j] in members && sorted[i] != sorted[j];
    }
  }

  /** Keys are sorted, there is no space, and control characters are escaped. */
  lemma SomeTexts()
    ensures Canonical(Object([Member("b", Null), Member("a", Bool(false))])) == "{\"a\":false,\"b\":null}"
    ensures Canonical(Array([Number("1"), Null, Bool(true)])) == "[1,null,true]"
    ensures Canonical(Str("x\n\"y")) == "\"x\\n\\\"y\""
  {
    hide Canonical, Escape;
    ObjectText();
    ArrayText();
    EscapedText();
    QuotedText("x\n\"y");
  }

  lemma QuotedText(text: string)
    ensures Canonical(Str(text)) == "\"" + Escape(text) + "\""
  {
  }

  lemma ObjectText()
    ensures Canonical(Object([Member("b", Null), Member("a", Bool(false))])) == "{\"a\":false,\"b\":null}"
  {
    hide Escape, Join, Sorting.Sort, KeyAtMost;
    EscapedText();
    var b, a := Member("b", Canonical(Null)), Member("a", Canonical(Bool(false)));
    var members := [Member("b", Null), Member("a", Bool(false))];
    assert seq(2, i requires 0 <= i < 2 => Member(members[i].key, Canonical(members[i].value))) == [b, a];
    SortedPair(b, a);
    assert Sorting.Map([a, b], CompactMember) == [CompactMember(a), CompactMember(b)];
    JoinedPair(CompactMember(a), CompactMember(b));
  }

  lemma JoinedPair(a: string, b: string)
    ensures Join([a, b], ",") == a + "," + b
  {
    assert [a, b][1..] == [b];
  }

  lemma ArrayText()
    ensures Canonical(Array([Number("1"), Null, Bool(true)])) == "[1,null,true]"
  {
    var items := [Number("1"), Null, Bool(true)];
    var texts := seq(3, i requires 0 <= i < 3 => Canonical(items[i]));
    assert texts == ["1", "null", "true"] && texts[1..] == ["null", "true"];
    JoinedPair("null", "true");
  }

  lemma EscapedText()
    ensures Escape("x\n\"y") == "x\\n\\\"y" && Escape("a") == "a" && Escape("b") == "b"
  {
    var s := "x\n\"y";
    assert s[1..] == "\n\"y" && s[2..] == "\"y" && s[3..] == "y";
    assert Escape(s[3..]) == "y" && Escape(s[2..]) == "\\\"y" && Escape(s[1..]) == "\\n\\\"y";
  }

  lemma SortedPair(b: Member<string>, a: Member<string>)
    requires a.key == "a" && b.key == "b"
    ensures Sorting.Sort([b, a], KeyAtMost) == [a, b]
  {
    assert [b, a][..1] == [b] && [b][..0] == [];
    assert Sorting.Sort([b], KeyAtMost) == [b];
    assert !KeyAtMost(b, a) && KeyAtMost(a, b);
  }

  /** Reading a canonical text back gives the value with its keys sorted. */
  lemma CanonicalParses(v: Json)
    requires WellFormed(v)
    ensures Parse(Canonical(v)) == Some(Normalize(v))
  {
    CanonicalIsCompact(v);
    NormalizeKeepsShape(v);
    SpacedParses(Normalize(v), "");
  }

  /** Two values print alike exactly when they are equal up to key order. */
  lemma CanonicalIsInjective(a: Json, b: Json)
    requires WellFormed(a) && WellFormed(b)
    ensures Canonical(a) == Canonical(b) <==> SameUpToOrder(a, b)
  {
    CanonicalParses(a);
    CanonicalParses(b);
    CanonicalIsCompact(a);
    CanonicalIsCompact(b);
    NormalizeForgetsOrder(a, b);
  }
}
