/** routes/orders.js: creating, listing, reading, re-statusing and deleting
    orders, over an orders table held as a map from the serial id to the row.

    Every handler but the admin listing runs behind Auth.AuthenticateToken
    and is given the verified claims (`req.user`). `created_at` is an abstract
    clock value supplied by the caller of Create; listings order by it,
    newest first. */
module Orders {
  import opened JsRuntime
  import opened Http
  import opened Tables
  import Auth
  import Users

  datatype OrderStatus = Pending | Confirmed | Processing | Shipped | Delivered | Cancelled

  /** The text stored in the `status` column. */
  function StatusName(s: OrderStatus): (name: string)
    ensures name in VALID_STATUSES
  {
    match s
    case Pending => "pending"
    case Confirmed => "confirmed"
    case Processing => "processing"
    case Shipped => "shipped"
    case Delivered => "delivered"
    case Cancelled => "cancelled"
  }

  const VALID_STATUSES: seq<string> := ["pending", "confirmed", "processing", "shipped", "delivered", "cancelled"]

  /** `status && validStatuses.includes(status)`: the body member names one of
      the six statuses, exactly (no trimming, no case folding). */
  function ParseStatus(v: Json): (r: Option<OrderStatus>)
    ensures r.Some? <==> v.Str? && v.s in VALID_STATUSES
    ensures r.Some? ==> v == Str(StatusName(r.value))
  {
    match v
    case Str(s) =>
      if s == "pending" then Some(Pending)
      else if s == "confirmed" then Some(Confirmed)
      else if s == "processing" then Some(Processing)
      else if s == "shipped" then Some(Shipped)
      else if s == "delivered" then Some(Delivered)
      else if s == "cancelled" then Some(Cancelled)
      else None
    case _ => None
  }

  /** Every status is accepted by its own name, whatever the order's current
      status: there is no transition rule. */
  lemma EveryStatusAccepted(target: OrderStatus)
    ensures ParseStatus(Str(StatusName(target))) == Some(target)
  {
  }

  /** A row of the orders table. */
  datatype Order = Order(userId: int, items: seq<Json>, total: Json, status: OrderStatus,
                         deliveryAddress: Option<Json>, createdAt: int)

  /** An order together with its id, as the handlers send it. */
  datatype Row = Row(id: int, order: Order)

  /** The members of a POST body the handler reads. */
  datatype OrderBody = OrderBody(items: Json, total: Json, deliveryAddress: Json)

  // ---------------------------------------------------------------------------
  // POST /

  /** The create checks: `!items || !total` first, then "items is a non-empty
      array"; None when both pass. A total of 0 counts as missing. */
  function OrderError(body: OrderBody): (r: Option<ErrorTag>)
    ensures r == Some(OrderFieldsRequired) <==> !Truthy(body.items) || !Truthy(body.total)
    ensures r == Some(EmptyCart) <==> Truthy(body.items) && Truthy(body.total) && !(body.items.Arr? && |body.items.elems| > 0)
    ensures r.None? <==> body.items.Arr? && |body.items.elems| > 0 && Truthy(body.total)
  {
    if !Truthy(body.items) || !Truthy(body.total) then Some(OrderFieldsRequired)
    else if !body.items.Arr? || |body.items.elems| == 0 then Some(EmptyCart)
    else None
  }

  /** The row the INSERT stores: owned by the caller, status pending, and a
      falsy delivery address stored as null. */
  function NewOrder(userId: int, body: OrderBody, now: int): (o: Order)
    requires OrderError(body).None?
    ensures o.userId == userId && o.status == Pending && o.createdAt == now
    ensures o.items == body.items.elems && o.items != [] && o.total == body.total
    ensures o.deliveryAddress == if Truthy(body.deliveryAddress) then Some(body.deliveryAddress) else None
  {
    Order(userId, body.items.elems, body.total, Pending,
          if Truthy(body.deliveryAddress) then Some(body.deliveryAddress) else None, now)
  }

  // ---------------------------------------------------------------------------
  // Reading the table

  /** The row is in the table under its id. */
  predicate Stored(rows: map<int, Order>, x: Row) {
    x.id in rows && rows[x.id] == x.order
  }

  function RowsAt(ids: seq<int>, rows: map<int, Order>): (r: seq<Row>)
    requires forall i :: 0 <= i < |ids| ==> ids[i] in rows
    requires StrictlyIncreasing(ids)
    ensures forall x :: multiset(r)[x] == if x.id in ids && Stored(rows, x) then 1 else 0
  {
    if ids == [] then []
    else
      var head := Row(ids[0], rows[ids[0]]);
      var rest := RowsAt(ids[1..], rows);
      assert ids[0] !in ids[1..];
      assert forall x: Row :: x.id in ids <==> x.id == ids[0] || x.id in ids[1..];
      [head] + rest
  }

  /** Every stored order once, in ascending id order. */
  function AllRows(rows: map<int, Order>): (r: seq<Row>)
    ensures forall x :: multiset(r)[x] == if Stored(rows, x) then 1 else 0
  {
    var ids := SortedKeys(rows.Keys);
    assert forall i :: 0 <= i < |ids| ==> ids[i] in ids;
    RowsAt(ids, rows)
  }

  /** The rows satisfying `keep`, each as often as before. */
  function Filter(rs: seq<Row>, keep: Row -> bool): (r: seq<Row>)
    ensures forall x :: multiset(r)[x] == if keep(x) then multiset(rs)[x] else 0
  {
    if rs == [] then []
    else
      assert rs == [rs[0]] + rs[1..];
      var rest := Filter(rs[1..], keep);
      if keep(rs[0]) then [rs[0]] + rest else rest
  }

  /** ORDER BY created_at DESC. */
  predicate NewestFirst(rs: seq<Row>) {
    forall i, j :: 0 <= i < j < |rs| ==> rs[i].order.createdAt >= rs[j].order.createdAt
  }

  function InsertNewest(x: Row, rs: seq<Row>): (r: seq<Row>)
    requires NewestFirst(rs)
    ensures NewestFirst(r)
    ensures multiset(r) == multiset(rs) + multiset{x}
    ensures |r| == |rs| + 1 && (r[0] == x || (rs != [] && r[0] == rs[0]))
  {
    if rs == [] || x.order.createdAt >= rs[0].order.createdAt then [x] + rs
    else
      var rest := InsertNewest(x, rs[1..]);
      assert rs == [rs[0]] + rs[1..];
      assert forall j :: 0 <= j < |rest| ==> rest[0].order.createdAt >= rest[j].order.createdAt;
      [rs[0]] + rest
  }

  /** Insertion sort, newest first. */
  function SortNewestFirst(rs: seq<Row>): (r: seq<Row>)
    ensures NewestFirst(r)
    ensures multiset(r) == multiset(rs)
  {
    if rs == [] then []
    else
      assert rs == [rs[0]] + rs[1..];
      InsertNewest(rs[0], SortNewestFirst(rs[1..]))
  }

  // ---------------------------------------------------------------------------
  // GET /my and GET /user/:userId

  /** `rs` holds every stored order of `owner` exactly once, and nothing else. */
  ghost predicate Lists(rs: seq<Row>, rows: map<int, Order>, owner: int) {
    forall x :: multiset(rs)[x] == if Stored(rows, x) && x.order.userId == owner then 1 else 0
  }

  /** `SELECT * FROM orders WHERE user_id = $1 ORDER BY created_at DESC`:
      every order of the owner exactly once, and no other, newest first. */
  function MyOrders(rows: map<int, Order>, owner: int): (r: seq<Row>)
    ensures NewestFirst(r)
    ensures Lists(r, rows, owner)
  {
    SortNewestFirst(Filter(AllRows(rows), (x: Row) => x.order.userId == owner))
  }

  /** GET /user/:userId as written: 403 unless `parseInt(userId)` is the
      caller's id, decided without the table; the query is then given the raw
      text, so it lists the orders of the database's reading of it, and fails
      (500) on a text the database rejects. When the database reads the text
      as parseInt does, these are the caller's own orders. */
  function OrdersOfUser(rows: map<int, Order>, user: Auth.Claims, userIdParam: string, cast: IntCast): (r: Result<seq<Row>>)
    ensures r == Err(AccessDenied) <==> ParseInt(userIdParam) != Some(user.id)
    ensures ParseInt(userIdParam) == Some(user.id) && cast(userIdParam).None? ==> r == Err(ServerError)
    ensures ParseInt(userIdParam) == Some(user.id) && cast(userIdParam).Some? ==>
            r == Ok(OK, MyOrders(rows, cast(userIdParam).value))
    ensures r.Ok? ==> r.code == OK && cast(userIdParam).Some? && r.value == MyOrders(rows, cast(userIdParam).value)
    ensures r.Ok? && (cast(userIdParam).Some? ==> ParseInt(userIdParam) == cast(userIdParam)) ==>
            r.value == MyOrders(rows, user.id)
  {
    if ParseInt(userIdParam) != Some(user.id) then Err(AccessDenied)
    else if cast(userIdParam).None? then Err(ServerError)
    else Ok(OK, MyOrders(rows, cast(userIdParam).value))
  }

  /** Corrected: the query is given the number the check compared, so a
      request that passes the check lists exactly the caller's orders. */
  function OrdersOfCheckedUser(rows: map<int, Order>, user: Auth.Claims, userIdParam: string): (r: Result<seq<Row>>)
    ensures r.Err? <==> ParseInt(userIdParam) != Some(user.id)
    ensures r.Err? ==> r.tag == AccessDenied
    ensures r.Ok? ==> r.code == OK && r.value == MyOrders(rows, user.id)
  {
    if ParseInt(userIdParam) != Some(user.id) then Err(AccessDenied) else Ok(OK, MyOrders(rows, ParseInt(userIdParam).value))
  }

  /** A database that reads `1_5` as 15 lets user 1 list user 15's orders
      through `/api/orders/user/1_5`; the corrected handler lists user 1's. */
  lemma UnderscoreIdListsAnotherUser(rows: map<int, Order>, user: Auth.Claims, cast: IntCast)
    requires user.id == 1 && cast("1_5") == Some(15)
    ensures OrdersOfUser(rows, user, "1_5", cast) == Ok(OK, MyOrders(rows, 15))
    ensures OrdersOfCheckedUser(rows, user, "1_5") == Ok(OK, MyOrders(rows, 1))
  {
    ParseIntStopsAtUnderscore();
  }

  /** GET /user/:userId with the caller's own id in decimal, read back by the
      database as that id, is GET /my. */
  lemma OrdersOfOwnIdAreMyOrders(rows: map<int, Order>, user: Auth.Claims, cast: IntCast)
    requires cast(Decimal(user.id)) == Some(user.id)
    ensures OrdersOfUser(rows, user, Decimal(user.id), cast) == Ok(OK, MyOrders(rows, user.id))
    ensures OrdersOfCheckedUser(rows, user, Decimal(user.id)) == Ok(OK, MyOrders(rows, user.id))
  {
    ParseIntDecimal(user.id);
  }

  lemma {:induction false} ListsAfterInsert(before: seq<Row>, after: seq<Row>, rows: map<int, Order>,
                                             id: int, o: Order, owner: int)
    requires id !in rows && Lists(before, rows, owner) && Lists(after, rows[id := o], owner)
    ensures multiset(after) == if owner == o.userId then multiset(before) + multiset{Row(id, o)} else multiset(before)
  {
    var expected := if owner == o.userId then multiset(before) + multiset{Row(id, o)} else multiset(before);
    forall x
      ensures multiset(after)[x] == expected[x]
    {
      if x.id != id {
        assert Stored(rows[id := o], x) == Stored(rows, x);
      }
    }
  }

  lemma {:induction false} ListsAfterRemove(before: seq<Row>, after: seq<Row>, rows: map<int, Order>,
                                             id: int, owner: int)
    requires id in rows && Lists(before, rows, owner) && Lists(after, rows - {id}, owner)
    ensures multiset(after) ==
            if owner == rows[id].userId then multiset(before) - multiset{Row(id, rows[id])} else multiset(before)
  {
    var expected := if owner == rows[id].userId then multiset(before) - multiset{Row(id, rows[id])} else multiset(before);
    forall x
      ensures multiset(after)[x] == expected[x]
    {
      if x.id != id {
        assert Stored(rows - {id}, x) == Stored(rows, x);
      }
    }
  }

  /** A new order shows up once in its owner's listing, and no other user's
      listing changes. */
  lemma InsertedOrderListed(rows: map<int, Order>, id: int, o: Order, owner: int)
    requires id !in rows
    ensures multiset(MyOrders(rows[id := o], owner)) ==
            if owner == o.userId then multiset(MyOrders(rows, owner)) + multiset{Row(id, o)}
            else multiset(MyOrders(rows, owner))
  {
    ListsAfterInsert(MyOrders(rows, owner), MyOrders(rows[id := o], owner), rows, id, o, owner);
  }

  /** Removing an order takes it out of its owner's listing and changes no
      other user's listing. */
  lemma RemovedOrderUnlisted(rows: map<int, Order>, id: int, owner: int)
    requires id in rows
    ensures multiset(MyOrders(rows - {id}, owner)) ==
            if owner == rows[id].userId then multiset(MyOrders(rows, owner)) - multiset{Row(id, rows[id])}
            else multiset(MyOrders(rows, owner))
  {
    ListsAfterRemove(MyOrders(rows, owner), MyOrders(rows - {id}, owner), rows, id, owner);
  }

  // ---------------------------------------------------------------------------
  // GET /:id

  /** GET /:id: 404 for a missing order whoever asks, then 403 for an order
      of someone else. */
  function OrderById(rows: map<int, Order>, user: Auth.Claims, id: int): (r: Result<Row>)
    ensures id !in rows ==> r == Err(OrderNotFound)
    ensures id in rows && rows[id].userId != user.id ==> r == Err(AccessDenied)
    ensures r.Ok? <==> id in rows && rows[id].userId == user.id
    ensures r.Ok? ==> r.code == OK && r.value == Row(id, rows[id])
  {
    if id !in rows then Err(OrderNotFound)
    else if rows[id].userId != user.id then Err(AccessDenied)
    else Ok(OK, Row(id, rows[id]))
  }

  // ---------------------------------------------------------------------------
  // GET / (admin listing, no authentication)

  const DEFAULT_LIMIT: nat := 50
  const DEFAULT_OFFSET: nat := 0

  /** The rows the admin listing pages through: all orders, or those whose
      status text equals a non-empty `status` query value, newest first. */
  function AdminOrders(rows: map<int, Order>, status: Option<string>): (r: seq<Row>)
    ensures NewestFirst(r)
    ensures forall x :: multiset(r)[x] ==
                        if Stored(rows, x) && (Present(status) ==> StatusName(x.order.status) == status.value) then 1 else 0
  {
    var all := AllRows(rows);
    if Present(status) then SortNewestFirst(Filter(all, (x: Row) => StatusName(x.order.status) == status.value))
    else SortNewestFirst(all)
  }

  /** A listed order with the name and e-mail of its user from the LEFT JOIN. */
  datatype AdminRow = AdminRow(id: int, order: Order, userName: Option<string>, userEmail: Option<string>)

  function Joined(x: Row, users: map<int, Users.User>): (a: AdminRow)
    ensures a.id == x.id && a.order == x.order
    ensures a.userName.Some? <==> x.order.userId in users
    ensures x.order.userId in users ==>
      a.userName == Some(users[x.order.userId].name) && a.userEmail == Some(users[x.order.userId].email)
    ensures x.order.userId !in users ==> a.userEmail.None?
  {
    if x.order.userId in users then
      AdminRow(x.id, x.order, Some(users[x.order.userId].name), Some(users[x.order.userId].email))
    else AdminRow(x.id, x.order, None, None)
  }

  /** `LIMIT lim OFFSET off`: the rows from position `off` on, at most `lim`. */
  function Page(all: seq<Row>, off: nat, lim: nat): (r: seq<Row>)
    ensures |r| == (if off >= |all| then 0 else if |all| - off < lim then |all| - off else lim)
    ensures forall i :: 0 <= i < |r| ==> r[i] == all[off + i]
  {
    if off >= |all| then [] else if |all| - off < lim then all[off..] else all[off..off + lim]
  }

  /** The LEFT JOIN of each listed order with its user. */
  function JoinUsers(page: seq<Row>, users: map<int, Users.User>): (r: seq<AdminRow>)
    ensures |r| == |page|
    ensures forall i :: 0 <= i < |r| ==> r[i] == Joined(page[i], users)
  {
    seq(|page|, i requires 0 <= i < |page| => Joined(page[i], users))
  }

  /** The admin listing: one page of the admin rows, limit 50 and offset 0
      unless given, each joined with its user. */
  function AdminList(rows: map<int, Order>, users: map<int, Users.User>, status: Option<string>,
                     limit: Option<nat>, offset: Option<nat>): (r: seq<AdminRow>)
    ensures var all, lim, off := AdminOrders(rows, status), limit.GetOr(DEFAULT_LIMIT), offset.GetOr(DEFAULT_OFFSET);
            && |r| == (if off >= |all| then 0 else if |all| - off < lim then |all| - off else lim)
            && forall i :: 0 <= i < |r| ==> r[i] == Joined(all[off + i], users)
  {
    JoinUsers(Page(AdminOrders(rows, status), offset.GetOr(DEFAULT_OFFSET), limit.GetOr(DEFAULT_LIMIT)), users)
  }

  /** A page holds rows of the whole listing, in the listing's order. */
  lemma PageOfNewestFirst(all: seq<Row>, off: nat, lim: nat)
    requires NewestFirst(all)
    ensures var p := Page(all, off, lim);
            && |p| <= lim
            && (forall i :: 0 <= i < |p| ==> multiset(all)[p[i]] > 0)
            && NewestFirst(p)
  {
    var p := Page(all, off, lim);
    forall i | 0 <= i < |p|
      ensures multiset(all)[p[i]] > 0
    {
      assert p[i] == all[off + i];
      assert all[off + i] in multiset(all);
    }
  }

  /** Every admin page lists stored orders that pass the status filter,
      newest first, at most `limit` of them. */
  lemma AdminPageProperties(rows: map<int, Order>, users: map<int, Users.User>, status: Option<string>,
                            limit: Option<nat>, offset: Option<nat>)
    ensures var r := AdminList(rows, users, status, limit, offset);
            && |r| <= limit.GetOr(DEFAULT_LIMIT)
            && (forall i :: 0 <= i < |r| ==> r[i].id in rows && rows[r[i].id] == r[i].order)
            && (forall i :: 0 <= i < |r| && Present(status) ==> StatusName(r[i].order.status) == status.value)
            && (forall i, j :: 0 <= i < j < |r| ==> r[i].order.createdAt >= r[j].order.createdAt)
  {
    var all := AdminOrders(rows, status);
    var page := Page(all, offset.GetOr(DEFAULT_OFFSET), limit.GetOr(DEFAULT_LIMIT));
    PageOfNewestFirst(all, offset.GetOr(DEFAULT_OFFSET), limit.GetOr(DEFAULT_LIMIT));
    var r := JoinUsers(page, users);
    assert r == AdminList(rows, users, status, limit, offset);
    forall i | 0 <= i < |r|
      ensures r[i].id in rows && rows[r[i].id] == r[i].order
      ensures Present(status) ==> StatusName(r[i].order.status) == status.value
    {
      assert multiset(all)[page[i]] > 0;
      assert r[i].id == page[i].id && r[i].order == page[i].order;
    }
  }

  // ---------------------------------------------------------------------------
  // The table

  class OrderTable {
    var rows: map<int, Order>
    var nextId: int

    /** Ids come from a serial sequence. */
    ghost predicate Valid()
      reads this
    {
      1 <= nextId && forall id :: id in rows ==> 1 <= id < nextId
    }

    constructor ()
      ensures Valid() && rows == map[] && nextId == 1
    {
      rows := map[];
      nextId := 1;
    }

    /** POST /: the table is unchanged on a rejected body; otherwise exactly
        one pending order of the caller is added under a fresh id (201). */
    method Create(user: Auth.Claims, body: OrderBody, now: int) returns (r: Result<Row>)
      requires Valid()
      modifies this
      ensures Valid()
      ensures OrderError(body).Some? ==>
        r == Err(OrderError(body).value) && rows == old(rows) && nextId == old(nextId)
      ensures OrderError(body).None? ==>
        var id := old(nextId);
        && id !in old(rows)
        && rows == old(rows)[id := NewOrder(user.id, body, now)]
        && nextId == id + 1
        && r == Ok(CREATED, Row(id, NewOrder(user.id, body, now)))
    {
      var error := OrderError(body);
      if error.Some? {
        return Err(error.value);
      }
      var order := NewOrder(user.id, body, now);
      var id := nextId;
      rows := rows[id := order];
      nextId := nextId + 1;
      r := Ok(CREATED, Row(id, order));
    }

    /** PUT /:id/status: the status is checked before the lookup; any caller
        may set any of the six statuses on any order, and only `status` of
        that order changes. */
    method UpdateStatus(caller: Auth.Claims, id: int, status: Json) returns (r: Result<Row>)
      requires Valid()
      modifies this
      ensures Valid() && nextId == old(nextId)
      ensures ParseStatus(status).None? ==> r == Err(InvalidStatus) && rows == old(rows)
      ensures ParseStatus(status).Some? && id !in old(rows) ==> r == Err(OrderNotFound) && rows == old(rows)
      ensures ParseStatus(status).Some? && id in old(rows) ==>
        var updated := old(rows)[id].(status := ParseStatus(status).value);
        rows == old(rows)[id := updated] && r == Ok(OK, Row(id, updated))
    {
      var target := ParseStatus(status);
      if target.None? {
        return Err(InvalidStatus);
      }
      if id !in rows {
        return Err(OrderNotFound);
      }
      var updated := rows[id].(status := target.value);
      rows := rows[id := updated];
      r := Ok(OK, Row(id, updated));
    }

    /** DELETE /:id: 404 for a missing order, then 403 for someone else's,
        the table unchanged in both; otherwise exactly that order is removed. */
    method Delete(user: Auth.Claims, id: int) returns (r: Result<()>)
      requires Valid()
      modifies this
      ensures Valid() && nextId == old(nextId)
      ensures id !in old(rows) ==> r == Err(OrderNotFound) && rows == old(rows)
      ensures id in old(rows) && old(rows)[id].userId != user.id ==> r == Err(AccessDenied) && rows == old(rows)
      ensures id in old(rows) && old(rows)[id].userId == user.id ==> r == Ok(OK, ()) && rows == old(rows) - {id}
    {
      if id !in rows {
        return Err(OrderNotFound);
      }
      if rows[id].userId != user.id {
        return Err(AccessDenied);
      }
      rows := rows - {id};
      r := Ok(OK, ());
    }
  }
}
