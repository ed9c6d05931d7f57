/** The text that a verification record searches: a value's JSON with the keys of every object in order. */
module CanonicalJson {
  import opened PyText
  import opened Json
  import opened AttestationRecord
  import JsonText
  import Sorting

  /** `w` is `v` with the fields of its objects in some order. */
  ghost predicate Reordered(v: Json, w: Json)
    decreases v, 1
  {
    match v
    case Arr(items) => w.Arr? && |w.items| == |items| && forall i :: 0 <= i < |items| ==> Reordered(items[i], w.items[i])
    case Obj(fields) => w.Obj? && exists order :: multiset(order) == multiset(fields) && Pairwise(fields, order, w.fields)
    case _ => w == v
  }

  /** `order`, whose members are among `fields`, and `others` agree key by key. */
  ghost predicate Pairwise(fields: seq<Member>, order: seq<Member>, others: seq<Member>)
    decreases fields, 0
  {
    && |order| == |others|
    && forall i :: 0 <= i < |order| ==> order[i] in fields && order[i].key == others[i].key && Reordered(order[i].value, others[i].value)
  }

  /** The keys of every object come in order. */
  ghost predicate Ordered(w: Json)
    decreases w
  {
    match w
    case Arr(items) => forall i :: 0 <= i < |items| ==> Ordered(items[i])
    case Obj(fields) =>
      && (forall i, j :: 0 <= i < j < |fields| ==> !Less(fields[j].key, fields[i].key))
      && forall i :: 0 <= i < |fields| ==> Ordered(fields[i].value)
    case _ => true
  }

  lemma ByKeyIsKeyOrder()
    ensures Sorting.IsKeyOrder(ByKey)
  {
    hide Less;
    forall a, b | ByKey(a, b)
      ensures !ByKey(b, a)
    {
      LessIsKeyOrder(a.key, b.key, a.key);
    }
    forall a, b, c | !ByKey(b, a) && !ByKey(c, b)
      ensures !ByKey(c, a)
    {
      LessIsKeyOrder(a.key, b.key, c.key);
    }
  }

  // ---------------------------------------------------------------- sorting the fields

  function Sorted(m: Member): Member {
    Member(m.key, SortKeys(m.value))
  }

  lemma {:induction false} ItemsAre(items: seq<Json>)
    ensures |SortItems(items)| == |items| && forall i :: 0 <= i < |items| ==> SortItems(items)[i] == SortKeys(items[i])
  {
    hide SortKeys;
    if items != [] {
      ItemsAre(items[1..]);
      assert forall i :: 1 <= i < |items| ==> items[i] == items[1..][i - 1];
    }
  }

  lemma {:induction false} FieldsAre(fields: seq<Member>)
    ensures |SortFields(fields)| == |fields| && forall i :: 0 <= i < |fields| ==> SortFields(fields)[i] == Sorted(fields[i])
  {
    hide SortKeys;
    if fields != [] {
      FieldsAre(fields[1..]);
      assert forall i :: 1 <= i < |fields| ==> fields[i] == fields[1..][i - 1];
    }
  }

  lemma {:induction false} InsertCommutes(x: Member, s: seq<Member>)
    ensures SortFields(Sorting.Insert(x, s, ByKey)) == Sorting.Insert(Sorted(x), SortFields(s), ByKey)
  {
    hide SortKeys, Less;
    FieldsAre(s);
    if s == [] || ByKey(x, s[0]) {
      assert ([x] + s)[1..] == s;
    } else {
      var rest := Sorting.Insert(x, s[1..], ByKey);
      InsertCommutes(x, s[1..]);
      assert ([s[0]] + rest)[1..] == rest;
      assert SortFields(s)[1..] == SortFields(s[1..]);
    }
  }

  lemma {:induction false} SortCommutes(s: seq<Member>)
    ensures SortFields(Sorting.Sort(s, ByKey)) == Sorting.Sort(SortFields(s), ByKey)
  {
    hide SortKeys, ByKey, Sorting.Insert;
    FieldsAre(s);
    if s != [] {
      var front, last := s[..|s| - 1], s[|s| - 1];
      SortCommutes(front);
      InsertCommutes(last, Sorting.Sort(front, ByKey));
      FieldsAre(front);
      var mapped := SortFields(s);
      assert mapped[..|mapped| - 1] == SortFields(front);
    }
  }

  // ---------------------------------------------------------------- what the text is of

  lemma PairwiseSorted(fields: seq<Member>)
    requires forall m :: m in fields ==> Reordered(m.value, SortKeys(m.value))
    ensures Reordered(Obj(fields), SortKeys(Obj(fields)))
  {
    hide Sorting.Sort;
    var order := Sorting.Sort(fields, ByKey);
    SortCommutes(fields);
    Sorting.SortPermutes(fields, ByKey);
    Sorting.SamePermutation(order, fields);
    FieldsAre(order);
    assert Pairwise(fields, order, SortFields(order));
  }

  lemma OrderedSorted(fields: seq<Member>)
    requires forall m :: m in fields ==> Ordered(SortKeys(m.value))
    ensures Ordered(SortKeys(Obj(fields)))
  {
    hide Sorting.Sort;
    var order := Sorting.Sort(fields, ByKey);
    SortCommutes(fields);
    Sorting.SortPermutes(fields, ByKey);
    Sorting.SamePermutation(order, fields);
    FieldsAre(order);
    ByKeyIsKeyOrder();
    Sorting.SortAscends(fields, ByKey);
  }

  lemma {:induction false} SortedIsReordered(v: Json)
    ensures Reordered(v, SortKeys(v)) && Ordered(SortKeys(v))
    decreases v
  {
    match v
    case Arr(items) =>
      ItemsAre(items);
      forall i | 0 <= i < |items|
        ensures Reordered(items[i], SortKeys(items[i])) && Ordered(SortKeys(items[i]))
      {
        SortedIsReordered(items[i]);
      }
    case Obj(fields) =>
      forall m | m in fields
        ensures Reordered(m.value, SortKeys(m.value)) && Ordered(SortKeys(m.value))
      {
        SortedIsReordered(m.value);
      }
      PairwiseSorted(fields);
      OrderedSorted(fields);
    case _ =>
  }

  /** The text is the compact printing of the value with its fields reordered, so that the keys of every object ascend. */
  lemma CanonicalTextMeans(v: Json)
    ensures exists w :: CanonicalText(v) == JsonText.Dumps(w) && Reordered(v, w) && Ordered(w)
  {
    hide SortKeys, Reordered, Ordered, JsonText.Dumps;
    SortedIsReordered(v);
    assert CanonicalText(v) == JsonText.Dumps(SortKeys(v));
  }
}
