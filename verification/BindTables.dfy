/** The tables of verification codes and of member devices, as the steps of the device-bind flow use them. */
module BindTables {
  import opened Prelude

  // ----- codes -----

  datatype CodeRow = CodeRow(id: nat, appId: string, email: string, typ: string, code: string, expiredAt: nat)

  predicate For(row: CodeRow, appId: string, email: string, typ: string) {
    row.appId == appId && row.email == email && row.typ == typ
  }

  /** The rows for (app, email, type) that have not expired, in table order. */
  function UnexpiredRows(rows: seq<CodeRow>, appId: string, email: string, typ: string, now: nat): seq<CodeRow> {
    if rows == [] then []
    else
      var rest := UnexpiredRows(rows[..|rows| - 1], appId, email, typ, now);
      var r := rows[|rows| - 1];
      if For(r, appId, email, typ) && now < r.expiredAt then rest + [r] else rest
  }

  lemma {:induction false} UnexpiredRowsIff(rows: seq<CodeRow>, appId: string, email: string, typ: string, now: nat,
                                            r: CodeRow)
    ensures r in UnexpiredRows(rows, appId, email, typ, now)
            <==> r in rows && For(r, appId, email, typ) && now < r.expiredAt
  {
    if rows != [] {
      UnexpiredRowsIff(rows[..|rows| - 1], appId, email, typ, now, r);
      assert rows == rows[..|rows| - 1] + [rows[|rows| - 1]];
    }
  }

  /** Without ids the update has no id condition, so it reaches every row for (app, email, type). */
  predicate Reached(row: CodeRow, ids: seq<nat>, appId: string, email: string, typ: string) {
    For(row, appId, email, typ) && (ids == [] || row.id in ids)
  }

  function ExpireRows(rows: seq<CodeRow>, ids: seq<nat>, appId: string, email: string, typ: string,
                      now: nat): (r: seq<CodeRow>)
    ensures |r| == |rows|
    ensures forall i | 0 <= i < |rows| ::
      r[i] == if Reached(rows[i], ids, appId, email, typ) then rows[i].(expiredAt := now) else rows[i]
  {
    if rows == [] then []
    else
      var r := rows[|rows| - 1];
      ExpireRows(rows[..|rows| - 1], ids, appId, email, typ, now) +
      [if Reached(r, ids, appId, email, typ) then r.(expiredAt := now) else r]
  }

  function Ids(rows: seq<CodeRow>): (ids: seq<nat>)
    ensures |ids| == |rows|
    ensures forall i | 0 <= i < |rows| :: ids[i] == rows[i].id
  {
    if rows == [] then [] else Ids(rows[..|rows| - 1]) + [rows[|rows| - 1].id]
  }

  /** Read the live rows, then set the expiry of those ids to now. */
  function ExpireLive(rows: seq<CodeRow>, appId: string, email: string, typ: string, now: nat): seq<CodeRow> {
    ExpireRows(rows, Ids(UnexpiredRows(rows, appId, email, typ, now)), appId, email, typ, now)
  }

  function InsertRow(rows: seq<CodeRow>, appId: string, email: string, typ: string, code: string,
                     expiredAt: nat): seq<CodeRow> {
    rows + [CodeRow(|rows|, appId, email, typ, code, expiredAt)]
  }

  lemma NoLiveRow(rows: seq<CodeRow>, appId: string, email: string, typ: string, now: nat)
    requires forall r | r in rows && For(r, appId, email, typ) :: r.expiredAt <= now
    ensures UnexpiredRows(rows, appId, email, typ, now) == []
  {
    var live := UnexpiredRows(rows, appId, email, typ, now);
    forall r
      ensures r !in live
    {
      UnexpiredRowsIff(rows, appId, email, typ, now, r);
    }
  }

  /** Expiring what was read leaves nothing live for (app, email, type) ... */
  lemma ExpireLiveClears(rows: seq<CodeRow>, appId: string, email: string, typ: string, now: nat)
    ensures UnexpiredRows(ExpireLive(rows, appId, email, typ, now), appId, email, typ, now) == []
  {
    var live := UnexpiredRows(rows, appId, email, typ, now);
    var rows' := ExpireLive(rows, appId, email, typ, now);
    forall r' | r' in rows' && For(r', appId, email, typ)
      ensures r'.expiredAt <= now
    {
      var i :| 0 <= i < |rows'| && rows'[i] == r';
      UnexpiredRowsIff(rows, appId, email, typ, now, rows[i]);
      if now < rows[i].expiredAt {
        var j :| 0 <= j < |live| && live[j] == rows[i];
        assert Ids(live)[j] == rows[i].id;
      }
    }
    NoLiveRow(rows', appId, email, typ, now);
  }

  /** ... and does not touch any other (app, email, type). */
  lemma {:induction false} ExpireRowsElsewhere(
    rows: seq<CodeRow>, ids: seq<nat>, appId: string, email: string, typ: string, now: nat,
    appId': string, email': string, typ': string
  )
    requires (appId, email, typ) != (appId', email', typ')
    ensures UnexpiredRows(ExpireRows(rows, ids, appId, email, typ, now), appId', email', typ', now)
         == UnexpiredRows(rows, appId', email', typ', now)
  {
    if rows == [] {
    } else {
      var init, r := rows[..|rows| - 1], rows[|rows| - 1];
      ExpireRowsElsewhere(init, ids, appId, email, typ, now, appId', email', typ');
      var e := ExpireRows(rows, ids, appId, email, typ, now);
      assert e[..|e| - 1] == ExpireRows(init, ids, appId, email, typ, now);
    }
  }

  /** Time passing only removes live rows. */
  lemma {:induction false} UnexpiredLater(rows: seq<CodeRow>, appId: string, email: string, typ: string, now: nat,
                                          later: nat)
    requires now <= later
    ensures |UnexpiredRows(rows, appId, email, typ, later)| <= |UnexpiredRows(rows, appId, email, typ, now)|
  {
    if rows != [] {
      UnexpiredLater(rows[..|rows| - 1], appId, email, typ, now, later);
    }
  }

  /** Nothing is live for (app, email, type). */
  ghost predicate AllExpired(rows: seq<CodeRow>, appId: string, email: string, typ: string, now: nat) {
    forall r | r in rows && For(r, appId, email, typ) :: r.expiredAt <= now
  }

  /** Row by row: the live ones end now, and when none is live all rows for (app, email, type) are stamped with now. */
  lemma ExpireLiveIs(rows: seq<CodeRow>, appId: string, email: string, typ: string, now: nat, i: nat)
    requires i < |rows| && forall a, b | 0 <= a < b < |rows| :: rows[a].id != rows[b].id
    ensures var ends := now < rows[i].expiredAt || AllExpired(rows, appId, email, typ, now);
            ExpireLive(rows, appId, email, typ, now)[i]
            == if For(rows[i], appId, email, typ) && ends then rows[i].(expiredAt := now) else rows[i]
  {
    var live := UnexpiredRows(rows, appId, email, typ, now);
    UnexpiredRowsIff(rows, appId, email, typ, now, rows[i]);
    if AllExpired(rows, appId, email, typ, now) {
      NoLiveRow(rows, appId, email, typ, now);
    } else {
      var r :| r in rows && For(r, appId, email, typ) && now < r.expiredAt;
      UnexpiredRowsIff(rows, appId, email, typ, now, r);
      assert live != [];
    }
    if rows[i] in live {
      var j :| 0 <= j < |live| && live[j] == rows[i];
      assert Ids(live)[j] == rows[i].id;
    } else if rows[i].id in Ids(live) {
      var j :| 0 <= j < |live| && live[j].id == rows[i].id;
      UnexpiredRowsIff(rows, appId, email, typ, now, live[j]);
      assert live[j] in live;
      var k :| 0 <= k < |rows| && rows[k] == live[j];
      assert false;
    }
  }

  // ----- checking and drawing a code -----

  const CODE_LIFETIME: pos := 30 * 60 * 1000

  /** `find` on the live rows. */
  function FindCode(live: seq<CodeRow>, code: string): Option<CodeRow> {
    if live == [] then None
    else if live[0].code == code then Some(live[0])
    else FindCode(live[1..], code)
  }

  /** A code is good when the first live row with it expires in less than its full lifetime. */
  predicate CodeGood(rows: seq<CodeRow>, appId: string, email: string, typ: string, code: string, now: nat) {
    var found := FindCode(UnexpiredRows(rows, appId, email, typ, now), code);
    found.Some? && found.value.expiredAt - now < CODE_LIFETIME
  }

  function Digit(n: nat): char
    requires n < 10
  {
    "0123456789"[n]
  }

  /** The last `width` decimal digits of `n`, with leading zeros. */
  function Digits(n: nat, width: nat): (s: string)
    ensures |s| == width
  {
    if width == 0 then "" else Digits(n / 10, width - 1) + [Digit(n % 10)]
  }

  /** `n.toString().padStart(4, '0')` for the numbers the generator draws. */
  function FourDigits(n: nat): string {
    Digits(n, 4)
  }

  lemma DigitInjective(m: nat, n: nat)
    requires m < 10 && n < 10 && Digit(m) == Digit(n)
    ensures m == n
  {
  }

  function Pow10(width: nat): pos {
    if width == 0 then 1 else 10 * Pow10(width - 1)
  }

  /** Numbers of at most `width` digits with the same text are the same. */
  lemma {:induction false} DigitsInjective(m: nat, n: nat, width: nat)
    requires m < Pow10(width) && n < Pow10(width) && Digits(m, width) == Digits(n, width)
    ensures m == n
  {
    if width > 0 {
      var s, t := Digits(m / 10, width - 1), Digits(n / 10, width - 1);
      assert (s + [Digit(m % 10)])[..width - 1] == s && (t + [Digit(n % 10)])[..width - 1] == t;
      assert (s + [Digit(m % 10)])[width - 1] == (t + [Digit(n % 10)])[width - 1];
      DigitInjective(m % 10, n % 10);
      DigitsInjective(m / 10, n / 10, width - 1);
    }
  }

  /** A text of digits read as a number. */
  function Value(s: string): int {
    if s == "" then 0 else 10 * Value(s[..|s| - 1]) + (s[|s| - 1] as int - '0' as int)
  }

  lemma DigitIs(n: nat)
    requires n < 10
    ensures '0' <= Digit(n) <= '9' && Digit(n) as int - '0' as int == n
  {
  }

  lemma ValueSnoc(s: string, c: char)
    ensures Value(s + [c]) == 10 * Value(s) + (c as int - '0' as int)
  {
    assert (s + [c])[..|s|] == s;
  }

  lemma {:induction false} ValueOfDigits(n: nat, width: nat)
    requires n < Pow10(width)
    ensures Value(Digits(n, width)) == n && forall i | 0 <= i < width :: '0' <= Digits(n, width)[i] <= '9'
  {
    if width > 0 {
      ValueOfDigits(n / 10, width - 1);
      ValueSnoc(Digits(n / 10, width - 1), Digit(n % 10));
      DigitIs(n % 10);
    }
  }

  /** A code is four decimal digits, and read as a number it is the number drawn. */
  lemma FourDigitsIs(n: nat)
    requires n < 10000
    ensures |FourDigits(n)| == 4 && Value(FourDigits(n)) == n
    ensures forall i | 0 <= i < 4 :: '0' <= FourDigits(n)[i] <= '9'
  {
    assert Pow10(4) == 10 * Pow10(3) && Pow10(3) == 10 * Pow10(2) && Pow10(2) == 10 * Pow10(1);
    ValueOfDigits(n, 4);
  }

  /** A code stands for one number in 0001..9999. */
  lemma FourDigitsInjective(m: nat, n: nat)
    requires m < 10000 && n < 10000 && FourDigits(m) == FourDigits(n)
    ensures m == n
  {
    assert Pow10(4) == 10 * Pow10(3) && Pow10(3) == 10 * Pow10(2) && Pow10(2) == 10 * Pow10(1);
    DigitsInjective(m, n, 4);
  }

  /** What the generator can return: floor(1 + random * 9999). */
  type Draw = n: nat | 1 <= n <= 9999 witness 1

  predicate Taken(live: seq<CodeRow>, code: string) {
    FindCode(live, code).Some?
  }

  lemma {:induction false} TakenIff(live: seq<CodeRow>, code: string)
    ensures Taken(live, code) <==> exists r :: r in live && r.code == code
  {
    if live == [] {
    } else if live[0].code == code {
      assert live[0] in live;
    } else {
      TakenIff(live[1..], code);
      assert live == [live[0]] + live[1..];
    }
  }

  /** The first draw that is not the code of a live row. */
  function FirstFree(draws: seq<Draw>, live: seq<CodeRow>): (d: Option<Draw>)
    ensures d.Some? ==> !Taken(live, FourDigits(d.value)) && d.value in draws
  {
    if draws == [] then None
    else if !Taken(live, FourDigits(draws[0])) then Some(draws[0])
    else FirstFree(draws[1..], live)
  }

  /** `draws[i]` is not the code of a live row, and all draws before it are. */
  ghost predicate FreeAt(draws: seq<Draw>, live: seq<CodeRow>, i: nat) {
    && i < |draws| && !Taken(live, FourDigits(draws[i]))
    && forall j | 0 <= j < i :: Taken(live, FourDigits(draws[j]))
  }

  /** The loop ends with the first free draw, and finds none exactly when every draw is the code of a live row. */
  lemma {:induction false} FirstFreeIs(draws: seq<Draw>, live: seq<CodeRow>)
    ensures FirstFree(draws, live) == None <==> forall x | x in draws :: Taken(live, FourDigits(x))
    ensures FirstFree(draws, live).Some? ==>
              exists i: nat :: FreeAt(draws, live, i) && draws[i] == FirstFree(draws, live).value
  {
    if draws == [] {
    } else if !Taken(live, FourDigits(draws[0])) {
      assert FreeAt(draws, live, 0) && draws[0] in draws;
    } else {
      FirstFreeIs(draws[1..], live);
      assert draws == [draws[0]] + draws[1..];
      if FirstFree(draws[1..], live).Some? {
        var i: nat :| FreeAt(draws[1..], live, i) && draws[1..][i] == FirstFree(draws, live).value;
        forall j | 0 <= j < i + 1
          ensures Taken(live, FourDigits(draws[j]))
        {
          assert j > 0 ==> draws[1..][j - 1] == draws[j];
        }
        assert FreeAt(draws, live, i + 1);
      }
    }
  }

  // ----- devices -----

  datatype Device = Device(id: string, memberId: string, createdAt: nat)

  predicate DistinctIds(devices: seq<Device>) {
    forall i, j | 0 <= i < j < |devices| :: devices[i].id != devices[j].id
  }

  function MemberDevices(devices: seq<Device>, memberId: string): seq<Device> {
    if devices == [] then []
    else
      var d := devices[|devices| - 1];
      MemberDevices(devices[..|devices| - 1], memberId) + if d.memberId == memberId then [d] else []
  }

  lemma {:induction false} MemberDevicesIff(devices: seq<Device>, memberId: string, d: Device)
    ensures d in MemberDevices(devices, memberId) <==> d in devices && d.memberId == memberId
  {
    if devices != [] {
      MemberDevicesIff(devices[..|devices| - 1], memberId, d);
      assert devices == devices[..|devices| - 1] + [devices[|devices| - 1]];
    }
  }

  /** The `reduce` that keeps the earlier of two devices; on a tie the one met first. */
  function Earliest(devices: seq<Device>): (d: Device)
    requires devices != []
    ensures d in devices && forall e | e in devices :: d.createdAt <= e.createdAt
  {
    if |devices| == 1 then devices[0]
    else
      var prev := Earliest(devices[..|devices| - 1]);
      var curr := devices[|devices| - 1];
      assert forall e | e in devices :: e == curr || e in devices[..|devices| - 1];
      if curr.createdAt < prev.createdAt then curr else prev
  }

  /** `devices[i]` is the device, all before it are newer and none is older. */
  ghost predicate OldestAt(devices: seq<Device>, i: nat, d: Device) {
    && i < |devices| && devices[i] == d
    && (forall j | 0 <= j < i :: d.createdAt < devices[j].createdAt)
    && forall j | i <= j < |devices| :: d.createdAt <= devices[j].createdAt
  }

  /** Of several oldest devices it is the first. */
  lemma {:induction false} EarliestIsFirst(devices: seq<Device>) returns (i: nat)
    requires devices != []
    ensures OldestAt(devices, i, Earliest(devices))
  {
    if |devices| == 1 {
      i := 0;
    } else {
      var init, curr := devices[..|devices| - 1], devices[|devices| - 1];
      i := EarliestIsFirst(init);
      if curr.createdAt < Earliest(init).createdAt {
        i := |devices| - 1;
        forall j | 0 <= j < i
          ensures curr.createdAt < devices[j].createdAt
        {
          assert devices[j] == init[j] && init[j] in init;
        }
      }
    }
  }

  function RemoveDevice(devices: seq<Device>, id: string): seq<Device> {
    if devices == [] then []
    else
      var d := devices[|devices| - 1];
      RemoveDevice(devices[..|devices| - 1], id) + if d.id == id then [] else [d]
  }

  lemma {:induction false} RemoveAbsent(devices: seq<Device>, id: string)
    requires forall i | 0 <= i < |devices| :: devices[i].id != id
    ensures RemoveDevice(devices, id) == devices
  {
    if devices == [] {
    } else {
      RemoveAbsent(devices[..|devices| - 1], id);
    }
  }

  /** As ids are distinct, deleting by id takes out exactly one row and keeps the order of the others. */
  lemma {:induction false} RemoveDeviceExactly(devices: seq<Device>, i: nat)
    requires DistinctIds(devices) && i < |devices|
    ensures RemoveDevice(devices, devices[i].id) == devices[..i] + devices[i + 1..]
  {
    var n := |devices| - 1;
    var init := devices[..n];
    if i == n {
      RemoveAbsent(init, devices[n].id);
      assert devices[n + 1..] == [];
    } else {
      RemoveDeviceExactly(init, i);
      assert init[i] == devices[i] && devices[n].id != devices[i].id;
      assert init[..i] == devices[..i] && init[i + 1..] + [devices[n]] == devices[i + 1..];
      assert init[..i] + init[i + 1..] + [devices[n]] == devices[..i] + (init[i + 1..] + [devices[n]]);
    }
  }

  lemma RemoveKeepsDistinct(devices: seq<Device>, i: nat)
    requires DistinctIds(devices) && i < |devices|
    ensures DistinctIds(devices[..i] + devices[i + 1..])
  {
  }
}
