/** Extended timestamps (time plus user tag), their order, and ordered sets of them. */
module TimeStamps {

  const NSEC_PER_SEC: nat := 1_000_000_000
  const UINT32_LIMIT: nat := 0x1_0000_0000
  const UINT64_LIMIT: nat := 0x1_0000_0000_0000_0000

  /** epicsTimeStamp (seconds, nanoseconds) extended by a user tag. */
  datatype TimeStamp = TimeStamp(sec: nat, nsec: nat, utag: nat)

  const MIN_TS := TimeStamp(0, 0, 0)
  const MAX_TS := TimeStamp(UINT32_LIMIT - 1, NSEC_PER_SEC - 1, UINT64_LIMIT - 1)

  /** A normalised timestamp that fits the widths of the C++ fields. */
  predicate InRange(t: TimeStamp) {
    t.sec < UINT32_LIMIT && t.nsec < NSEC_PER_SEC && t.utag < UINT64_LIMIT
  }

  predicate TimeEqual(a: TimeStamp, b: TimeStamp) {
    a.sec == b.sec && a.nsec == b.nsec
  }

  predicate TimeLess(a: TimeStamp, b: TimeStamp) {
    a.sec < b.sec || (a.sec == b.sec && a.nsec < b.nsec)
  }

  predicate Eq(a: TimeStamp, b: TimeStamp) { TimeEqual(a, b) && a.utag == b.utag }

  predicate Lt(a: TimeStamp, b: TimeStamp) {
    TimeLess(a, b) || (TimeEqual(a, b) && a.utag < b.utag)
  }

  predicate Le(a: TimeStamp, b: TimeStamp) { Lt(a, b) || Eq(a, b) }

  predicate Ge(a: TimeStamp, b: TimeStamp) { !Lt(a, b) }

  predicate Gt(a: TimeStamp, b: TimeStamp) { !Le(a, b) }

  /** The same time with user tag 0: what a buffer caches of its first and last row. */
  function Untagged(t: TimeStamp): TimeStamp { t.(utag := 0) }

  // ----- time arithmetic in integer nanoseconds -----

  function Ticks(t: TimeStamp): nat { t.sec * NSEC_PER_SEC + t.nsec }

  /** epicsTimeAddSeconds on the time part: the seconds field is 32 bits wide. */
  function AddTicks(t: TimeStamp, ticks: nat): TimeStamp {
    var total := Ticks(t) + ticks;
    TimeStamp((total / NSEC_PER_SEC) % UINT32_LIMIT, total % NSEC_PER_SEC, t.utag)
  }

  /** Adding does not run over the end of the 32-bit seconds field. */
  predicate NoWrap(t: TimeStamp, ticks: nat) {
    Ticks(t) + ticks < UINT32_LIMIT * NSEC_PER_SEC
  }

  lemma TicksOrder(a: TimeStamp, b: TimeStamp)
    requires a.nsec < NSEC_PER_SEC && b.nsec < NSEC_PER_SEC
    ensures Ticks(a) < Ticks(b) <==> TimeLess(a, b)
    ensures Ticks(a) == Ticks(b) <==> TimeEqual(a, b)
  {
  }

  /** Away from wrap-around the sum is exact, keeps the tag and stays normalised. */
  lemma AddTicksExact(t: TimeStamp, ticks: nat)
    requires InRange(t) && NoWrap(t, ticks)
    ensures InRange(AddTicks(t, ticks))
    ensures Ticks(AddTicks(t, ticks)) == Ticks(t) + ticks
    ensures ticks > 0 ==> Lt(t, AddTicks(t, ticks))
  {
    var total := Ticks(t) + ticks;
    assert total / NSEC_PER_SEC < UINT32_LIMIT;
    TicksOrder(t, AddTicks(t, ticks));
  }

  /** One nanosecond carries into the seconds, and the seconds wrap around at 32 bits. */
  lemma CarryAndWrap(utag: nat)
    ensures AddTicks(TimeStamp(1, 999_999_999, utag), 1) == TimeStamp(2, 0, utag)
    ensures AddTicks(TimeStamp(4_294_967_295, 999_999_999, utag), 1) == TimeStamp(0, 0, utag)
    ensures AddTicks(TimeStamp(7, 5, utag), 3_000_000_002) == TimeStamp(10, 7, utag)
  {
  }

  /** Times are ordered by their nanoseconds and, where these agree, by their tags. */
  lemma OrderedByTicks(a: TimeStamp, b: TimeStamp)
    requires a.nsec < 1_000_000_000 && b.nsec < 1_000_000_000
    ensures Lt(a, b) <==>
      var x, y := a.sec * 1_000_000_000 + a.nsec, b.sec * 1_000_000_000 + b.nsec; x < y || (x == y && a.utag < b.utag)
  {
    TicksOrder(a, b);
  }

  /** The six C++ operators, three of them defined by negation, agree on one strict total order. */
  lemma OperatorsFormTotalOrder(a: TimeStamp, b: TimeStamp, c: TimeStamp)
    ensures Eq(a, b) <==> a == b
    ensures Gt(a, b) <==> Lt(b, a)
    ensures Ge(a, b) <==> Le(b, a)
    ensures Lt(a, b) || a == b || Lt(b, a)
    ensures !(Lt(a, b) && Lt(b, a)) && !Lt(a, a)
    ensures Lt(a, b) && Lt(b, c) ==> Lt(a, c)
    ensures Le(a, b) && Le(b, c) ==> Le(a, c)
  {
  }

  // ----- std::set<TimeStamp>: a strictly ascending sequence -----

  predicate Ascending(s: seq<TimeStamp>) {
    forall i, j :: 0 <= i < j < |s| ==> Lt(s[i], s[j])
  }

  /** std::set::insert. */
  function Insert(s: seq<TimeStamp>, t: TimeStamp): seq<TimeStamp> {
    if s == [] then [t]
    else if Lt(t, s[0]) then [t] + s
    else if Eq(t, s[0]) then s
    else [s[0]] + Insert(s[1..], t)
  }

  /** Insertion adds exactly the given element and keeps the order. */
  lemma {:induction false} InsertElements(s: seq<TimeStamp>, t: TimeStamp)
    ensures forall x :: x in Insert(s, t) <==> x in s || x == t
    ensures Ascending(s) ==> Ascending(Insert(s, t))
  {
    if s != [] && Lt(s[0], t) {
      InsertElements(s[1..], t);
      var r := Insert(s[1..], t);
      assert forall x :: x in s <==> x == s[0] || x in s[1..];
      if Ascending(s) {
        assert forall x :: x in s[1..] ==> Lt(s[0], x);
        assert forall x :: x in r ==> Lt(s[0], x);
      }
    }
  }

  /** A strictly ascending sequence is determined by the set of its elements. */
  lemma {:induction false} AscendingUnique(a: seq<TimeStamp>, b: seq<TimeStamp>)
    requires Ascending(a) && Ascending(b)
    requires forall x :: x in a <==> x in b
    ensures a == b
  {
    assert a == [] || a[0] in b;
    assert b == [] || b[0] in a;
    if a != [] && b != [] {
      assert a[0] == b[0];
      forall x ensures x in a[1..] <==> x in b[1..] {
        if x in a[1..] { assert x in a && x != a[0]; assert x in b; }
        if x in b[1..] { assert x in b && x != b[0]; assert x in a; }
      }
      AscendingUnique(a[1..], b[1..]);
      assert a == [a[0]] + a[1..] && b == [b[0]] + b[1..];
    }
  }
}
