// The reader and the validator agree on their limits (internal/action/value.go and
// request_normalize.go): what the reader can produce is exactly what is admitted.
module JsonLimits {
  import opened Wrappers
  import opened Decimal
  import opened JsonValue
  import opened JsonRead
  import DecimalParse

  // Object keys and array items of a value, at every level.
  function ItemCount(v: Value): nat
    decreases v, 1
  {
    match v
    case Array(vs) => CountItems(vs)
    case Object(ms) => CountMembers(ms)
    case _ => 0
  }

  function CountItems(vs: seq<Value>): nat
    decreases vs, 0
  {
    if vs == [] then 0 else CountItems(vs[..|vs| - 1]) + 1 + ItemCount(vs[|vs| - 1])
  }

  function CountMembers(ms: seq<Member>): nat
    decreases ms, 0
  {
    if ms == [] then 0 else CountMembers(ms[..|ms| - 1]) + 1 + ItemCount(ms[|ms| - 1].value)
  }

  // Every limit but the one on items.
  predicate Fit(v: Value, depth: nat)
    decreases v
  {
    && depth <= MAX_DEPTH
    && match v
       case Null => true
       case Bool(_) => true
       case Number(d) => Canonical(d)
       case String(s) => ByteLength(s) <= MAX_STRING_BYTES
       case Array(vs) => forall i :: 0 <= i < |vs| ==> Fit(vs[i], depth + 1)
       case Object(ms) =>
         Ascending(ms) && NamesFit(ms) && forall i :: 0 <= i < |ms| ==> Fit(ms[i].value, depth + 1)
  }

  // The items that `more` adds to the count so far are within the limit.
  predicate Within(items: nat, more: nat) {
    more == 0 || items + more <= MAX_ITEMS
  }

  // ---------------------------------------------------------------- the validator

  lemma {:induction false} CountFirst(vs: seq<Value>)
    requires vs != []
    ensures CountItems(vs) == 1 + ItemCount(vs[0]) + CountItems(vs[1..])
    decreases |vs|
  {
    hide ItemCount;
    if |vs| == 1 {
      assert vs[..0] == [] && vs[1..] == [];
    } else {
      var front := vs[..|vs| - 1];
      CountFirst(front);
      assert vs[1..][..|vs| - 2] == front[1..];
    }
  }

  lemma {:induction false} CountFirstMember(ms: seq<Member>)
    requires ms != []
    ensures CountMembers(ms) == 1 + ItemCount(ms[0].value) + CountMembers(ms[1..])
    decreases |ms|
  {
    hide ItemCount;
    if |ms| == 1 {
      assert ms[..0] == [] && ms[1..] == [];
    } else {
      var front := ms[..|ms| - 1];
      CountFirstMember(front);
      assert ms[1..][..|ms| - 2] == front[1..];
    }
  }

  // The validator's running count refuses exactly the values with too many items.
  lemma {:induction false} AdmitExact(v: Value, depth: nat, items: nat)
    ensures Admit(v, depth, items).Ok? <==> Fit(v, depth) && Within(items, ItemCount(v))
    ensures Admit(v, depth, items).Ok? ==> Admit(v, depth, items).value == items + ItemCount(v)
    decreases v, 1
  {
    hide Canonical, ByteLength, Ascending;
    match v
    case Array(vs) =>
      if depth <= MAX_DEPTH {
        AdmitItemsExact(vs, depth, items);
      }
    case Object(ms) =>
      if depth <= MAX_DEPTH {
        AdmitMembersExact(ms, None, depth, items);
        FollowsStart(ms);
      }
    case _ =>
  }

  lemma {:induction false} AdmitItemsExact(vs: seq<Value>, depth: nat, items: nat)
    ensures AdmitItems(vs, depth, items).Ok? <==>
              Within(items, CountItems(vs)) && forall i :: 0 <= i < |vs| ==> Fit(vs[i], depth + 1)
    ensures AdmitItems(vs, depth, items).Ok? ==> AdmitItems(vs, depth, items).value == items + CountItems(vs)
    decreases vs, 0
  {
    hide Admit, Fit, ItemCount, CountItems;
    NoItems();
    if vs != [] {
      CountFirst(vs);
      AdmitExact(vs[0], depth + 1, items + 1);
      var first := Admit(vs[0], depth + 1, items + 1);
      if first.Ok? {
        AdmitItemsExact(vs[1..], depth, first.value);
      }
      assert forall i :: 0 < i < |vs| ==> vs[i] == vs[1..][i - 1];
      assert (forall i :: 0 <= i < |vs| ==> Fit(vs[i], depth + 1)) <==>
        Fit(vs[0], depth + 1) && forall i :: 0 <= i < |vs[1..]| ==> Fit(vs[1..][i], depth + 1);
    }
  }

  lemma NoItems()
    ensures CountItems([]) == 0 && CountMembers([]) == 0
  {
  }

  // The names ascend, from above the previous one on.
  predicate Follow(ms: seq<Member>, previous: Option<string>) {
    Ascending(ms) && (ms != [] && previous.Some? ==> Less(previous.value, ms[0].name))
  }

  lemma FollowsStart(ms: seq<Member>)
    ensures Follow(ms, None) <==> Ascending(ms)
  {
  }

  lemma FollowNext(ms: seq<Member>, previous: Option<string>)
    requires ms != []
    ensures Follow(ms, previous) <==>
              (previous.Some? ==> Less(previous.value, ms[0].name)) && Follow(ms[1..], Some(ms[0].name))
  {
    hide Less;
    if Follow(ms[1..], Some(ms[0].name)) {
      forall i | 0 < i < |ms|
        ensures Less(ms[i - 1].name, ms[i].name)
      {
        if 1 < i {
          assert Less(ms[1..][i - 2].name, ms[1..][i - 1].name);
        }
      }
    }
    if Follow(ms, previous) && 1 < |ms| {
      assert Less(ms[0].name, ms[1].name);
      forall i | 0 < i < |ms[1..]|
        ensures Less(ms[1..][i - 1].name, ms[1..][i].name)
      {
        assert Less(ms[i].name, ms[i + 1].name);
      }
    }
  }

  predicate FitMembers(ms: seq<Member>, depth: nat) {
    NamesFit(ms) && forall i :: 0 <= i < |ms| ==> Fit(ms[i].value, depth)
  }

  lemma FitMembersNext(ms: seq<Member>, depth: nat)
    requires ms != []
    ensures FitMembers(ms, depth) <==>
              ByteLength(ms[0].name) <= MAX_STRING_BYTES && Fit(ms[0].value, depth) && FitMembers(ms[1..], depth)
  {
    hide ByteLength, Fit;
    if ByteLength(ms[0].name) <= MAX_STRING_BYTES && Fit(ms[0].value, depth) && FitMembers(ms[1..], depth) {
      forall i | 0 <= i < |ms|
        ensures ByteLength(ms[i].name) <= MAX_STRING_BYTES && Fit(ms[i].value, depth)
      {
        if 0 < i {
          assert ms[i] == ms[1..][i - 1];
        }
      }
    }
    if FitMembers(ms, depth) {
      forall i | 0 <= i < |ms[1..]|
        ensures ByteLength(ms[1..][i].name) <= MAX_STRING_BYTES && Fit(ms[1..][i].value, depth)
      {
        assert ms[1..][i] == ms[i + 1];
      }
    }
  }

  lemma {:induction false} AdmitMembersExact(ms: seq<Member>, previous: Option<string>, depth: nat, items: nat)
    ensures AdmitMembers(ms, previous, depth, items).Ok? <==>
              Within(items, CountMembers(ms)) && Follow(ms, previous) && FitMembers(ms, depth + 1)
    ensures AdmitMembers(ms, previous, depth, items).Ok? ==>
              AdmitMembers(ms, previous, depth, items).value == items + CountMembers(ms)
    decreases ms, 0
  {
    if ms != [] {
      hide Admit, Fit, ItemCount, CountMembers, Less, ByteLength, Follow, FitMembers;
      CountFirstMember(ms);
      FollowNext(ms, previous);
      FitMembersNext(ms, depth + 1);
      AdmitExact(ms[0].value, depth + 1, items + 1);
      var first := Admit(ms[0].value, depth + 1, items + 1);
      if first.Ok? {
        AdmitMembersExact(ms[1..], Some(ms[0].name), depth, first.value);
      }
    }
  }

  // ------------------------------------------------------------------- the reader

  // No member comes before one with a lesser name.
  predicate NeverDown(ms: seq<Member>) {
    forall i, j :: 0 <= i < j < |ms| ==> !Less(ms[j].name, ms[i].name)
  }

  lemma {:induction false} InsertKeeps(ms: seq<Member>, m: Member)
    ensures multiset(Insert(ms, m)) == multiset(ms) + multiset{m}
    decreases |ms|
  {
    hide Less;
    if ms != [] && Less(m.name, ms[|ms| - 1].name) {
      var front, last := ms[..|ms| - 1], ms[|ms| - 1];
      assert ms == front + [last];
      InsertKeeps(front, m);
    }
  }

  lemma {:induction false} InsertCounts(ms: seq<Member>, m: Member)
    ensures CountMembers(Insert(ms, m)) == CountMembers(ms) + 1 + ItemCount(m.value)
    decreases |ms|
  {
    hide ItemCount, Less;
    if ms == [] || !Less(m.name, ms[|ms| - 1].name) {
      assert (ms + [m])[..|ms|] == ms;
    } else {
      var front, last := ms[..|ms| - 1], ms[|ms| - 1];
      InsertCounts(front, m);
      assert (Insert(front, m) + [last])[..|Insert(front, m)|] == Insert(front, m);
    }
  }

  lemma {:induction false} InsertSorts(ms: seq<Member>, m: Member)
    requires NeverDown(ms)
    ensures NeverDown(Insert(ms, m))
    decreases |ms|
  {
    hide Less, NeverDown;
    if ms == [] || !Less(m.name, ms[|ms| - 1].name) {
      LastNeverDown(ms, m);
    } else {
      var front, last := ms[..|ms| - 1], ms[|ms| - 1];
      FrontNeverDown(ms);
      InsertSorts(front, m);
      InsertKeeps(front, m);
      LessFlips(m.name, last.name);
      var inserted := Insert(front, m);
      forall i | 0 <= i < |inserted|
        ensures !Less(last.name, inserted[i].name)
      {
        assert inserted[i] in multiset(front) + multiset{m};
      }
      AppendNeverDown(inserted, last);
    }
  }

  lemma FrontNeverDown(ms: seq<Member>)
    requires NeverDown(ms) && ms != []
    ensures NeverDown(ms[..|ms| - 1])
    ensures forall i :: 0 <= i < |ms| - 1 ==> !Less(ms[|ms| - 1].name, ms[i].name)
  {
    hide Less;
  }

  lemma LessFlips(a: string, b: string)
    requires Less(a, b)
    ensures !Less(b, a)
  {
    LessAsym(a, b);
  }

  lemma AppendNeverDown(ms: seq<Member>, m: Member)
    requires NeverDown(ms) && forall i :: 0 <= i < |ms| ==> !Less(m.name, ms[i].name)
    ensures NeverDown(ms + [m])
  {
    hide Less;
  }

  // A member not below the last is not below any.
  lemma LastNeverDown(ms: seq<Member>, m: Member)
    requires NeverDown(ms) && (ms != [] ==> !Less(m.name, ms[|ms| - 1].name))
    ensures NeverDown(ms + [m])
  {
    hide Less;
    forall i | 0 <= i < |ms|
      ensures !Less(m.name, ms[i].name)
    {
      var last := ms[|ms| - 1].name;
      if Less(m.name, ms[i].name) && i < |ms| - 1 {
        LessTotal(m.name, last);
        LessTotal(ms[i].name, last);
        if Less(last, m.name) {
          LessTrans(last, m.name, ms[i].name);
        }
      }
    }
    AppendNeverDown(ms, m);
  }

  lemma NoneDown()
    ensures NeverDown([])
  {
  }

  lemma {:induction false} SortSorts(ms: seq<Member>)
    ensures NeverDown(SortMembers(ms)) && multiset(SortMembers(ms)) == multiset(ms)
    ensures CountMembers(SortMembers(ms)) == CountMembers(ms)
    decreases |ms|
  {
    hide Insert, ItemCount, Less, NeverDown;
    NoneDown();
    if ms != [] {
      var front, last := ms[..|ms| - 1], ms[|ms| - 1];
      assert ms == front + [last];
      SortSorts(front);
      InsertSorts(SortMembers(front), last);
      InsertKeeps(SortMembers(front), last);
      InsertCounts(SortMembers(front), last);
    }
  }

  // An object that is made has ascending names, its members' values and their count.
  lemma ObjectFits(ms: seq<Member>, depth: nat)
    requires ObjectOf(ms).Ok? && depth <= MAX_DEPTH
    requires forall i :: 0 <= i < |ms| ==> Fit(ms[i].value, depth + 1)
    ensures Fit(ObjectOf(ms).value, depth) && ItemCount(ObjectOf(ms).value) == CountMembers(ms)
  {
    hide Less, CountMembers, SortMembers, ByteLength;
    SortSorts(ms);
    var sorted := SortMembers(ms);
    forall i | 0 < i < |sorted|
      ensures Less(sorted[i - 1].name, sorted[i].name)
    {
      LessTotal(sorted[i - 1].name, sorted[i].name);
      assert sorted[i - 1].name != sorted[i].name;
    }
    forall i | 0 <= i < |sorted|
      ensures Fit(sorted[i].value, depth + 1)
    {
      assert sorted[i] in multiset(ms);
    }
  }

  // Whatever the reader produces is within the limits, with its items counted.
  lemma {:induction false} ReadFits(ts: seq<Piece>, depth: nat, items: nat)
    requires Read(ts, depth, items).Ok?
    ensures var (v, rest, n) := Read(ts, depth, items).value;
            Fit(v, depth) && n == items + ItemCount(v) && Within(items, ItemCount(v))
    decreases |ts|, 0
  {
    hide ByteLength, ReadItems, ReadMembers, Canonical;
    match ts[0]
    case NumberText(lexeme) => NumberFits(lexeme);
    case Punct(mark) =>
      if mark == '[' {
        assert CountItems([]) == 0;
        ReadItemsFits(ts[1..], depth, items, []);
      } else {
        assert CountMembers([]) == 0;
        ReadMembersFits(ts[1..], depth, items, []);
      }
    case _ =>
  }

  lemma NumberFits(lexeme: string)
    requires NumberRead(lexeme).Ok?
    ensures Canonical(NumberRead(lexeme).value)
  {
    hide Canonical, DecimalParse.Writes;
  }

  lemma {:induction false} ReadItemsFits(ts: seq<Piece>, depth: nat, items: nat, values: seq<Value>)
    requires ReadItems(ts, depth, items, values).Ok? && depth <= MAX_DEPTH
    requires forall i :: 0 <= i < |values| ==> Fit(values[i], depth + 1)
    ensures var (v, rest, n) := ReadItems(ts, depth, items, values).value;
            && Fit(v, depth) && n + CountItems(values) == items + ItemCount(v)
            && CountItems(values) <= ItemCount(v) && Within(items, ItemCount(v) - CountItems(values))
    decreases |ts|, 1
  {
    hide Read, ReadMembers;
    if ts[0] != Punct(']') {
      ReadFits(ts, depth + 1, items + 1);
      var (v, rest, n) := Read(ts, depth + 1, items + 1).value;
      assert (values + [v])[..|values|] == values;
      ReadItemsFits(rest, depth, n, values + [v]);
    }
  }

  lemma {:induction false} ReadMembersFits(ts: seq<Piece>, depth: nat, items: nat, members: seq<Member>)
    requires ReadMembers(ts, depth, items, members).Ok? && depth <= MAX_DEPTH
    requires forall i :: 0 <= i < |members| ==> Fit(members[i].value, depth + 1)
    ensures var (v, rest, n) := ReadMembers(ts, depth, items, members).value;
            && Fit(v, depth) && n + CountMembers(members) == items + ItemCount(v)
            && CountMembers(members) <= ItemCount(v) && Within(items, ItemCount(v) - CountMembers(members))
    decreases |ts|, 1
  {
    hide Read, ReadItems, ObjectOf;
    if ts[0] == Punct('}') {
      ObjectFits(members, depth);
    } else {
      ReadFits(ts[1..], depth + 1, items + 1);
      var (v, rest, n) := Read(ts[1..], depth + 1, items + 1).value;
      var more := members + [Member(ts[0].text, v)];
      assert more[..|members|] == members;
      ReadMembersFits(rest, depth, n, more);
    }
  }

  // A value is produced by reading some text exactly when it is admitted.
  lemma ReaderAgrees(v: Value)
    ensures (exists ts, n :: Read(ts, 0, 0) == Ok((v, [], n))) <==> Admit(v, 0, 0).Ok?
  {
    hide Read, Admit, Fit, ItemCount;
    AdmitExact(v, 0, 0);
    if ts, n :| Read(ts, 0, 0) == Ok((v, [], n)) {
      ReadFits(ts, 0, 0);
    }
    if Admit(v, 0, 0).Ok? {
      ReadsBack(v, 0, 0, []);
      assert Delivered(Print(v)) + [] == Delivered(Print(v));
      assert Read(Delivered(Print(v)), 0, 0) == Ok((v, [], Admit(v, 0, 0).value));
    }
  }
}
