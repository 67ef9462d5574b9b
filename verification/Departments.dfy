/** The department table of the routing script (lua/route.lua:66-93) and the numbers that
    belong to each department. */
module Departments {
  import opened Options
  import opened CText

  /** A department key.  Configuration and callers may name one that does not exist. */
  datatype DeptId = Hr | Finance | Admin | Management | Sales | Service | Market | Rnd | Support
                  | Unlisted(name: string)

  datatype Dept = Dept(short: nat, first: nat, last: nat, external: bool)

  function Department(d: DeptId): (r: Option<Dept>)
    ensures r.None? <==> d.Unlisted?
    ensures r.Some? ==> 1000 <= r.value.short < r.value.first <= r.value.last <= 9999
  {
    match d
    case Hr => Some(Dept(1000, 1001, 1050, false))
    case Finance => Some(Dept(1100, 1101, 1150, false))
    case Admin => Some(Dept(1200, 1201, 1250, false))
    case Management => Some(Dept(1300, 1301, 1330, false))
    case Sales => Some(Dept(2000, 2001, 2400, true))
    case Service => Some(Dept(2500, 2501, 2800, true))
    case Market => Some(Dept(2900, 2901, 2980, true))
    case Rnd => Some(Dept(3000, 3001, 3200, false))
    case Support => Some(Dept(9000, 9001, 9050, true))
    case Unlisted(_) => None
  }

  function AllDepartments(): seq<DeptId> { [Hr, Finance, Admin, Management, Sales, Service, Market, Rnd, Support] }

  /** The key map built from the departments' keys. */
  function IvrDept(key: string): (r: Option<DeptId>)
    ensures r.Some? ==> Department(r.value).Some? && Department(r.value).value.external
  {
    if |key| != 1 then None
    else if key[0] == '1' then Some(Sales) else if key[0] == '2' then Some(Service)
    else if key[0] == '3' then Some(Market) else if key[0] == '0' then Some(Support) else None
  }

  /** Numbers compare as Lua numbers, so the range of a department holds fractions too. */
  predicate InRange(d: DeptId, n: real) {
    match Department(d)
    case None => false
    case Some(dept) => dept.first as real <= n <= dept.last as real
  }

  function FirstInRange(ds: seq<DeptId>, n: real): (r: Option<DeptId>)
    ensures r.Some? ==> Department(r.value).Some?
  {
    if ds == [] then None else if InRange(ds[0], n) then Some(ds[0]) else FirstInRange(ds[1..], n)
  }

  function DeptOfNumber(n: real): (r: Option<DeptId>)
    ensures r.Some? ==> Department(r.value).Some?
  {
    FirstInRange(AllDepartments(), n)
  }

  lemma {:induction false} FirstInRangeSpec(ds: seq<DeptId>, n: real)
    ensures match FirstInRange(ds, n)
            case Some(d) => d in ds && InRange(d, n)
            case None => forall d :: d in ds ==> !InRange(d, n)
  {
    if ds != [] {
      FirstInRangeSpec(ds[1..], n);
      assert ds == [ds[0]] + ds[1..];
    }
  }

  lemma RangesDisjoint(a: DeptId, b: DeptId, n: real)
    requires InRange(a, n) && InRange(b, n)
    ensures a == b
  {
  }

  lemma ListedIsDepartment(d: DeptId)
    requires Department(d).Some?
    ensures d in AllDepartments()
  {
    var all := AllDepartments();
    assert all[0] == Hr && all[1] == Finance && all[2] == Admin && all[3] == Management && all[4] == Sales
        && all[5] == Service && all[6] == Market && all[7] == Rnd && all[8] == Support;
  }

  /** The order in which the table is walked does not matter: the department found is
      the only one whose range holds the number. */
  lemma DeptOfNumberIs(n: real, d: DeptId)
    ensures DeptOfNumber(n) == Some(d) <==> InRange(d, n)
  {
    FirstInRangeSpec(AllDepartments(), n);
    if InRange(d, n) {
      ListedIsDepartment(d);
      RangesDisjoint(d, DeptOfNumber(n).value, n);
    }
  }

  /** Which extensions belong to which department, and which departments are open to the
      outside. */
  lemma DepartmentTable(n: nat)
    ensures DeptOfNumber(n as real) ==
              if 1001 <= n <= 1050 then Some(Hr) else if 1101 <= n <= 1150 then Some(Finance)
              else if 1201 <= n <= 1250 then Some(Admin) else if 1301 <= n <= 1330 then Some(Management)
              else if 2001 <= n <= 2400 then Some(Sales) else if 2501 <= n <= 2800 then Some(Service)
              else if 2901 <= n <= 2980 then Some(Market) else if 3001 <= n <= 3200 then Some(Rnd)
              else if 9001 <= n <= 9050 then Some(Support) else None
  {
    FirstInRangeSpec(AllDepartments(), n as real);
    forall d
      ensures InRange(d, n as real) ==> DeptOfNumber(n as real) == Some(d)
    {
      DeptOfNumberIs(n as real, d);
    }
    assert (2001 <= n <= 2400 ==> InRange(Sales, n as real)) && (2501 <= n <= 2800 ==> InRange(Service, n as real))
        && (2901 <= n <= 2980 ==> InRange(Market, n as real)) && (9001 <= n <= 9050 ==> InRange(Support, n as real));
    assert (1001 <= n <= 1050 ==> InRange(Hr, n as real)) && (1101 <= n <= 1150 ==> InRange(Finance, n as real))
        && (1201 <= n <= 1250 ==> InRange(Admin, n as real)) && (1301 <= n <= 1330 ==> InRange(Management, n as real))
        && (3001 <= n <= 3200 ==> InRange(Rnd, n as real));
  }

  /** The four keys lead to exactly the departments that are open to the outside. */
  lemma KeysAndDoors(d: DeptId)
    ensures IvrDept("1") == Some(Sales) && IvrDept("2") == Some(Service)
         && IvrDept("3") == Some(Market) && IvrDept("0") == Some(Support)
    ensures Department(d).Some? && Department(d).value.external <==> exists key :: IvrDept(key) == Some(d)
    ensures Department(d).Some? ==> Department(d).value.short % 100 == 0
                                    && Department(d).value.first == Department(d).value.short + 1
  {
  }

  // -------------------------------------------------------------------- extensions

  function Span(first: nat, last: nat): seq<string> {
    if last < first then [] else seq(last - first + 1, i requires 0 <= i => PrintNat(first + i))
  }

  /** The extensions of a department, in the order in which they are walked. */
  function Members(d: DeptId): seq<string> {
    match Department(d)
    case None => []
    case Some(dept) => Span(dept.first, dept.last)
  }

  function Short(dept: Dept): string { PrintNat(dept.short) }

  /** The number is the short number of department d or one of its extensions. */
  ghost predicate NumberOf(d: DeptId, n: nat) {
    Department(d).Some? && Department(d).value.short <= n <= Department(d).value.last
  }

  /** What may be handed to an outside caller: nothing, or a number of a department that
      is open to the outside. */
  ghost predicate OpenNumber(t: string) {
    t == "" || exists d, n :: NumberOf(d, n) && Department(d).value.external && t == PrintNat(n)
  }

  ghost predicate InternalNumber(t: string) {
    exists d, n :: NumberOf(d, n) && !Department(d).value.external && t == PrintNat(n)
  }

  lemma PrintNatInjective(m: nat, n: nat)
    requires PrintNat(m) == PrintNat(n)
    ensures m == n
  {
    ValueOfPrint(m);
    ValueOfPrint(n);
  }

  lemma OpenIsNotInternal(t: string)
    ensures !(OpenNumber(t) && InternalNumber(t))
  {
    if OpenNumber(t) && InternalNumber(t) {
      var d, n :| NumberOf(d, n) && !Department(d).value.external && t == PrintNat(n);
      if e, m :| NumberOf(e, m) && Department(e).value.external && t == PrintNat(m) {
        PrintNatInjective(m, n);
        assert false;
      }
    }
  }

  lemma SpanNumber(first: nat, last: nat, e: string) returns (n: nat)
    requires e in Span(first, last)
    ensures first <= n <= last && e == PrintNat(n)
  {
    var s := Span(first, last);
    var i :| 0 <= i < |s| && s[i] == e;
    n := first + i;
  }

  /** The extensions are the numbers of the range, each and no other. */
  lemma MembersAre(d: DeptId, e: string)
    ensures e in Members(d) <==>
              Department(d).Some?
              && exists n: nat :: Department(d).value.first <= n <= Department(d).value.last && e == PrintNat(n)
  {
    if e in Members(d) {
      var n := SpanNumber(Department(d).value.first, Department(d).value.last, e);
    }
    if Department(d).Some? {
      var first := Department(d).value.first;
      if n: nat :| first <= n <= Department(d).value.last && e == PrintNat(n) {
        assert Members(d)[n - first] == e;
      }
    }
  }

  lemma MemberNumber(d: DeptId, e: string) returns (n: nat)
    requires e in Members(d)
    ensures NumberOf(d, n) && e == PrintNat(n) && InRange(d, n as real)
  {
    n := SpanNumber(Department(d).value.first, Department(d).value.last, e);
  }

  lemma MemberOfOne(a: DeptId, b: DeptId, e: string)
    requires e in Members(a) && e in Members(b)
    ensures a == b
  {
    var m := MemberNumber(a, e);
    var n := MemberNumber(b, e);
    PrintNatInjective(m, n);
    RangesDisjoint(a, b, n as real);
  }

  lemma MemberOpen(d: DeptId, e: string)
    requires e in Members(d) && Department(d).value.external
    ensures OpenNumber(e)
  {
    var n := MemberNumber(d, e);
  }

  lemma ShortOpen(d: DeptId)
    requires Department(d).Some? && Department(d).value.external
    ensures OpenNumber(Short(Department(d).value))
  {
    assert NumberOf(d, Department(d).value.short);
  }

  lemma ClosedMember(d: DeptId, e: string)
    requires e in Members(d) && !Department(d).value.external
    ensures InternalNumber(e) && !OpenNumber(e)
  {
    var n := MemberNumber(d, e);
    OpenIsNotInternal(e);
  }
}
