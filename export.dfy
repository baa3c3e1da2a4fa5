/**
 * `GET /api/admin/export/registrations` of
 * `app/api/admin/export/registrations/route.ts`: the CSV export of the joined
 * registrations. Fields are joined with "," and rows with "\n", with no
 * quoting and no trailing line break.
 */
module ExportRegistrations {
  import opened Common
  import opened AdminAuth
  import opened Database

  const HeaderColumns: seq<string> := ["Event", "User Name", "Email", "Phone", "College", "Sports", "Registration Date"]

  /** The header line: the seven column names joined by "," and ended by "\n". */
  const CsvHeader: string := Join(",", HeaderColumns) + "\n"

  /**
   * The values one CSV row is made of. `sportsToPlay` is read from the user
   * document; no writer of the store sets it, so it is absent for every
   * joined registration.
   */
  datatype ExportRow = ExportRow(eventTitle: string, userName: string, email: string, phone: Option<string>,
                                 college: Option<string>, sportsToPlay: Option<seq<string>>, date: string)

  /** The row of one joined registration; `renderDate` is `toLocaleDateString` of its `registeredAt`. */
  function ToExportRow(j: JoinedRegistration, renderDate: RegistrationRow -> string): ExportRow
  {
    ExportRow(j.event.info.title, j.user.name, j.user.email, j.user.phoneNumber, j.user.collegeName, None, renderDate(j.row))
  }

  /** The seven values of a row; `join` renders an absent value as "" and the sports list is joined with "; ". */
  function Fields(r: ExportRow): (f: seq<string>)
    ensures |f| == |HeaderColumns|
    ensures r.sportsToPlay.None? ==> f[5] == ""
  {
    [r.eventTitle, r.userName, r.email, OrEmpty(r.phone), OrEmpty(r.college),
     Join("; ", if r.sportsToPlay.Some? then r.sportsToPlay.value else []), r.date]
  }

  function CsvLine(r: ExportRow): string
  {
    Join(",", Fields(r))
  }

  function CsvBody(rows: seq<ExportRow>): string
  {
    Join("\n", seq(|rows|, i requires 0 <= i < |rows| => CsvLine(rows[i])))
  }

  function Csv(rows: seq<ExportRow>): (s: string)
    ensures StartsWith(s, CsvHeader)
  {
    assert (CsvHeader + CsvBody(rows))[..|CsvHeader|] == CsvHeader;
    CsvHeader + CsvBody(rows)
  }

  /** With no registrations the export is the header line alone. */
  lemma EmptyExportIsHeader()
    ensures Csv([]) == CsvHeader
  {
  }

  /** A row field that contains no comma and no line break. */
  predicate Clean(field: string)
  {
    ',' !in field && '\n' !in field
  }

  /** A row whose values are clean gives a line without line breaks that splits back into its values. */
  lemma {:induction false} LineSplitsBack(r: ExportRow)
    requires forall k :: 0 <= k < 7 ==> Clean(Fields(r)[k])
    ensures '\n' !in CsvLine(r)
    ensures Split(CsvLine(r), ',') == Fields(r)
  {
    assert forall k :: 0 <= k < 7 ==> '\n' !in Fields(r)[k] && ',' !in Fields(r)[k];
    JoinAvoids('\n', ",", Fields(r));
    SplitJoin(Fields(r), ',');
  }

  /**
   * Round trip: when no value contains "," or "\n", splitting the body at
   * line breaks and each line at commas gives back the rows' values, one line
   * per row, in order.
   */
  lemma CsvRoundTrip(rows: seq<ExportRow>)
    requires |rows| > 0
    requires forall i, k :: 0 <= i < |rows| && 0 <= k < 7 ==> Clean(Fields(rows[i])[k])
    ensures |Split(CsvBody(rows), '\n')| == |rows|
    ensures forall i :: 0 <= i < |rows| ==> Split(Split(CsvBody(rows), '\n')[i], ',') == Fields(rows[i])
  {
    var lines := seq(|rows|, i requires 0 <= i < |rows| => CsvLine(rows[i]));
    forall i | 0 <= i < |rows| ensures '\n' !in lines[i] && Split(lines[i], ',') == Fields(rows[i]) {
      LineSplitsBack(rows[i]);
    }
    SplitJoin(lines, '\n');
  }

  /**
   * Nothing is quoted: a line splits into seven columns plus one for every
   * comma inside a value, so a value containing "," shifts the columns.
   */
  lemma ColumnsPerLine(r: ExportRow)
    ensures |Split(CsvLine(r), ',')| == 7 + CountAll(',', Fields(r))
  {
    SplitCount(CsvLine(r), ',');
    JoinCount(',', ",", Fields(r));
    assert Count(',', ",") == 1 + Count(',', "");
  }

  /** The column names hold no comma and no line break, so the header line splits back into them. */
  lemma {:induction false} HeaderSplitsBack()
    ensures '\n' !in Join(",", HeaderColumns)
    ensures Split(Join(",", HeaderColumns), ',') == HeaderColumns
  {
    assert forall k :: 0 <= k < |HeaderColumns| ==> ',' !in HeaderColumns[k] && '\n' !in HeaderColumns[k];
    JoinAvoids('\n', ",", HeaderColumns);
    SplitJoin(HeaderColumns, ',');
  }

  /** A non-empty export is the header's columns and the rows' lines joined by line breaks. */
  lemma {:induction false} CsvIsJoinOfLines(rows: seq<ExportRow>)
    requires |rows| > 0
    ensures var lines := seq(|rows|, i requires 0 <= i < |rows| => CsvLine(rows[i]));
      Csv(rows) == Join("\n", [Join(",", HeaderColumns)] + lines)
  {
    var lines := seq(|rows|, i requires 0 <= i < |rows| => CsvLine(rows[i]));
    var all := [Join(",", HeaderColumns)] + lines;
    assert all[1..] == lines;
  }

  /**
   * The round trip on the whole export: split at line breaks, the first line
   * splits at commas into the header's column names and line `i + 1` into the
   * values of row `i`.
   */
  lemma {:induction false} CsvSplitsBack(rows: seq<ExportRow>)
    requires |rows| > 0
    requires forall i, k :: 0 <= i < |rows| && 0 <= k < 7 ==> Clean(Fields(rows[i])[k])
    ensures |Split(Csv(rows), '\n')| == |rows| + 1
    ensures Split(Split(Csv(rows), '\n')[0], ',') == HeaderColumns
    ensures forall i :: 0 <= i < |rows| ==> Split(Split(Csv(rows), '\n')[i + 1], ',') == Fields(rows[i])
  {
    HeaderSplitsBack();
    CsvIsJoinOfLines(rows);
    var lines := seq(|rows|, i requires 0 <= i < |rows| => CsvLine(rows[i]));
    var all := [Join(",", HeaderColumns)] + lines;
    forall i | 0 <= i < |rows| ensures '\n' !in all[i + 1] && Split(all[i + 1], ',') == Fields(rows[i]) {
      assert all[i + 1] == CsvLine(rows[i]);
      LineSplitsBack(rows[i]);
    }
    assert forall i :: 0 <= i < |all| ==> '\n' !in all[i] by {
      forall i | 0 <= i < |all| ensures '\n' !in all[i] {
        if i > 0 { assert '\n' !in all[(i - 1) + 1]; }
      }
    }
    SplitJoin(all, '\n');
  }

  /** The number of line breaks of the body: one per gap between rows, plus those inside values. */
  lemma LinesOfBody(rows: seq<ExportRow>)
    requires |rows| > 0
    ensures var lines := seq(|rows|, i requires 0 <= i < |rows| => CsvLine(rows[i]));
      Count('\n', CsvBody(rows)) == |rows| - 1 + CountAll('\n', lines)
  {
    var lines := seq(|rows|, i requires 0 <= i < |rows| => CsvLine(rows[i]));
    JoinCount('\n', "\n", lines);
    assert Count('\n', "\n") == 1 + Count('\n', "");
  }

  /** The export of the store: the joined registrations, one row each, in aggregation order. */
  function ExportRows(db: Db, renderDate: RegistrationRow -> string): (r: seq<ExportRow>)
    ensures |r| == |AllEventRegistrations(db.rows, db.users, db.events)|
    ensures forall i :: 0 <= i < |r| ==> r[i] == ToExportRow(AllEventRegistrations(db.rows, db.users, db.events)[i], renderDate)
  {
    var joined := AllEventRegistrations(db.rows, db.users, db.events);
    seq(|joined|, i requires 0 <= i < |joined| => ToExportRow(joined[i], renderDate))
  }

  /**
   * `GET`: 401 without an admin session, 500 "Export failed" when the store
   * throws, otherwise the CSV text.
   */
  function Get(jar: map<string, Cookie>, key: string, nowSec: int, db: Db, renderDate: RegistrationRow -> string,
               storeFault: bool): (r: (Reply, Option<string>))
    ensures r.0.status == 401 <==> SessionFromJar(jar, key, nowSec).None?
    ensures r.1.Some? <==> r.0.status == 200
    ensures SessionFromJar(jar, key, nowSec).None? ==> r == (Reply(401, Some("Unauthorized")), None)
    ensures SessionFromJar(jar, key, nowSec).Some? && storeFault ==> r == (Reply(500, Some("Export failed")), None)
    ensures SessionFromJar(jar, key, nowSec).Some? && !storeFault ==>
      r == (Reply(200, None), Some(Csv(ExportRows(db, renderDate))))
  {
    if SessionFromJar(jar, key, nowSec).None? then (Reply(401, Some("Unauthorized")), None)
    else if storeFault then (Reply(500, Some("Export failed")), None)
    else (Reply(200, None), Some(Csv(ExportRows(db, renderDate))))
  }

  /** The values of a row that joins registration `r` with user `u`. */
  predicate RowOf(row: ExportRow, db: Db, r: RegistrationRow, u: User, renderDate: RegistrationRow -> string)
  {
    r in db.rows && u in db.users && u.email == r.userEmail && r.eventId in db.events
    && row == ExportRow(db.events[r.eventId].info.title, u.name, u.email, u.phoneNumber, u.collegeName, None, renderDate(r))
  }

  /** Line `i` of `rows` joins some registration of the store with its registrant. */
  ghost predicate JoinedAt(rows: seq<ExportRow>, i: int, db: Db, renderDate: RegistrationRow -> string)
    requires 0 <= i < |rows|
  {
    exists r, u :: RowOf(rows[i], db, r, u, renderDate)
  }

  /** Every line of a successful export names an event and a user that exist, and the user is the registrant. */
  lemma ExportedRowsAreJoined(db: Db, renderDate: RegistrationRow -> string)
    ensures forall i :: 0 <= i < |ExportRows(db, renderDate)| ==> JoinedAt(ExportRows(db, renderDate), i, db, renderDate)
  {
    var joined := AllEventRegistrations(db.rows, db.users, db.events);
    JoinSound(db.rows, db.users, db.events);
    var rows := ExportRows(db, renderDate);
    forall i | 0 <= i < |rows|
      ensures JoinedAt(rows, i, db, renderDate)
    {
      var j := joined[i];
      assert j.row in db.rows && Consistent(j, db.users, db.events);
      assert rows[i] == ToExportRow(j, renderDate);
      assert RowOf(rows[i], db, j.row, j.user, renderDate);
    }
  }
}

/**
 * `GET /api/admin/export/merch` of `app/api/admin/export/merch/route.ts`: the
 * mapping of joined orders to spreadsheet rows and the column widths. Writing
 * the workbook itself is not modelled.
 */
module ExportMerch {
  import opened Common
  import opened Database

  /** An order joined with a user of its email, as `getAllMerchOrders` yields it. */
  datatype JoinedOrder = JoinedOrder(order: Order, user: User)

  /** The `$unwind` of one order: one output per user with the order's email, in collection order. */
  function JoinOrder(o: Order, users: seq<User>): seq<JoinedOrder>
  {
    var matching := UsersWithEmail(users, o.userEmail);
    seq(|matching|, j requires 0 <= j < |matching| => JoinedOrder(o, matching[j]))
  }

  /** `getAllMerchOrders`: `$lookup` into `users` by email, then `$unwind`. */
  function AllMerchOrders(orders: seq<Order>, users: seq<User>): (r: seq<JoinedOrder>)
    ensures forall j :: 0 <= j < |r| ==> r[j].order in orders && r[j].user in users && r[j].user.email == r[j].order.userEmail
  {
    if orders == [] then []
    else
      var tail := AllMerchOrders(orders[1..], users);
      assert forall j :: 0 <= j < |tail| ==> tail[j].order in orders by {
        forall j | 0 <= j < |tail| ensures tail[j].order in orders {
          var i :| 0 <= i < |orders[1..]| && orders[1..][i] == tail[j].order;
          assert orders[i + 1] == tail[j].order;
        }
      }
      JoinOrder(orders[0], users) + tail
  }

  /** The join distributes over concatenation of the orders: each order's outputs stay together, in order. */
  lemma {:induction false} AllMerchOrdersAppend(a: seq<Order>, b: seq<Order>, users: seq<User>)
    ensures AllMerchOrders(a + b, users) == AllMerchOrders(a, users) + AllMerchOrders(b, users)
  {
    if a == [] {
      assert a + b == b;
    } else {
      assert (a + b)[1..] == a[1..] + b;
      AllMerchOrdersAppend(a[1..], b, users);
    }
  }

  /** Completeness: every order is joined with every user of its email. */
  lemma {:induction false} MerchJoinComplete(orders: seq<Order>, users: seq<User>, i: nat, u: nat)
    requires i < |orders| && u < |users| && users[u].email == orders[i].userEmail
    ensures exists j :: 0 <= j < |AllMerchOrders(orders, users)| && AllMerchOrders(orders, users)[j] == JoinedOrder(orders[i], users[u])
  {
    var r := AllMerchOrders(orders, users);
    var head := JoinOrder(orders[0], users);
    var tail := AllMerchOrders(orders[1..], users);
    assert r == head + tail;
    if i == 0 {
      var matching := UsersWithEmail(users, orders[0].userEmail);
      assert users[u] in matching;
      var m :| 0 <= m < |matching| && matching[m] == users[u];
      assert r[m] == head[m];
    } else {
      assert orders[1..][i - 1] == orders[i];
      MerchJoinComplete(orders[1..], users, i - 1, u);
      var j :| 0 <= j < |tail| && tail[j] == JoinedOrder(orders[i], users[u]);
      assert r[|head| + j] == tail[j];
    }
  }

  /** The `$unwind` drops an order that no user's email matches. */
  lemma {:induction false} OrderWithoutUserDropped(o: Order, users: seq<User>)
    requires forall u :: 0 <= u < |users| ==> users[u].email != o.userEmail
    ensures AllMerchOrders([o], users) == []
  {
    FilterKeepsNone((u: User) => u.email == o.userEmail, users);
    assert JoinOrder(o, users) == [];
  }

  /** Some user has the order's email. */
  predicate HasCustomer(o: Order, users: seq<User>)
  {
    exists u :: 0 <= u < |users| && users[u].email == o.userEmail
  }

  /** With unique emails, an order that has a customer joins exactly once. */
  lemma {:induction false} JoinOrderSingle(o: Order, users: seq<User>)
    requires forall i, j :: 0 <= i < j < |users| ==> users[i].email != users[j].email
    requires HasCustomer(o, users)
    ensures |JoinOrder(o, users)| == 1 && JoinOrder(o, users)[0].order == o
  {
    var u :| 0 <= u < |users| && users[u].email == o.userEmail;
    UsersWithEmailSingle(users, o.userEmail, u);
  }

  /**
   * With unique emails and a customer for every order, the export has one
   * joined order per order, in order.
   */
  lemma {:induction false} OneJoinPerOrder(orders: seq<Order>, users: seq<User>)
    requires forall i, j :: 0 <= i < j < |users| ==> users[i].email != users[j].email
    requires forall i :: 0 <= i < |orders| ==> HasCustomer(orders[i], users)
    ensures |AllMerchOrders(orders, users)| == |orders|
    ensures forall i :: 0 <= i < |orders| ==> AllMerchOrders(orders, users)[i].order == orders[i]
  {
    if orders != [] {
      assert forall i :: 0 <= i < |orders[1..]| ==> orders[1..][i] == orders[i + 1];
      OneJoinPerOrder(orders[1..], users);
      JoinOrderSingle(orders[0], users);
      var head := JoinOrder(orders[0], users);
      assert head == [head[0]];
      assert AllMerchOrders(orders, users) == [head[0]] + AllMerchOrders(orders[1..], users);
      ConsKeepsOrders(head[0], AllMerchOrders(orders[1..], users), orders);
    }
  }

  /** Prepending the first order's join to joins that match the remaining orders pointwise matches all of them. */
  lemma {:induction false} ConsKeepsOrders(head: JoinedOrder, tail: seq<JoinedOrder>, orders: seq<Order>)
    requires orders != [] && head.order == orders[0] && |tail| == |orders| - 1
    requires forall i :: 0 <= i < |tail| ==> tail[i].order == orders[i + 1]
    ensures |[head] + tail| == |orders|
    ensures forall i :: 0 <= i < |orders| ==> ([head] + tail)[i].order == orders[i]
  {
  }

  const MerchColumns: seq<string> := ["Order ID", "Item Name", "Customer Name", "Customer Email", "Phone Number",
                                      "College", "Size", "Price", "Status", "Order Date"]

  /** The `wch` entries of the worksheet's `!cols`. */
  const ColWidths: seq<nat> := [15, 25, 20, 30, 15, 25, 10, 10, 12, 15]

  /** A spreadsheet row: the cells in key order; `None` is an `undefined` value. */
  type Record = seq<(string, Option<string>)>

  /**
   * The row of one joined order. `renderId` is `ObjectId.toString` and
   * `renderDate` is `toLocaleDateString` of the order date.
   */
  function ExportRecord(j: JoinedOrder, renderId: nat -> string, renderDate: Order -> string): (rec: Record)
    ensures |rec| == |MerchColumns|
    ensures forall k :: 0 <= k < |rec| ==> rec[k].0 == MerchColumns[k]
  {
    [("Order ID", Some(renderId(j.order.id))),
     ("Item Name", Some(j.order.title)),
     ("Customer Name", Some(j.user.name)),
     ("Customer Email", Some(j.user.email)),
     ("Phone Number", Some(if Truthy(j.user.phoneNumber) then j.user.phoneNumber.value else "N/A")),
     ("College", j.user.collegeName),
     ("Size", Some(j.order.size)),
     ("Price", Some("₹" + IntToString(j.order.price))),
     ("Status", Some(j.order.status)),
     ("Order Date", Some(renderDate(j.order)))]
  }

  /** `orders.map(...)`: one record per joined order, in order. */
  function ExportData(joined: seq<JoinedOrder>, renderId: nat -> string, renderDate: Order -> string): (r: seq<Record>)
    ensures |r| == |joined|
    ensures forall i :: 0 <= i < |r| ==> r[i] == ExportRecord(joined[i], renderId, renderDate)
  {
    seq(|joined|, i requires 0 <= i < |joined| => ExportRecord(joined[i], renderId, renderDate))
  }

  /** There is one width per exported column. */
  lemma WidthsMatchColumns()
    ensures |ColWidths| == |MerchColumns| == 10
  {
  }

  /**
   * The cell values: an empty or missing phone number becomes "N/A", the
   * price is "₹" followed by its decimal digits, and the email is that of the
   * order's customer.
   */
  lemma RecordCells(j: JoinedOrder, renderId: nat -> string, renderDate: Order -> string)
    requires j.user.email == j.order.userEmail
    ensures var rec := ExportRecord(j, renderId, renderDate);
      (rec[4].1 == Some("N/A") <==> !Truthy(j.user.phoneNumber) || j.user.phoneNumber == Some("N/A"))
      && (Truthy(j.user.phoneNumber) ==> rec[4].1 == j.user.phoneNumber)
      && rec[7].1.Some? && StartsWith(rec[7].1.value, "₹")
      && rec[7].1.value[1..] == IntToString(j.order.price)
      && rec[3].1 == Some(j.order.userEmail)
  {
  }

  /** `GET`: 401 without a user session (no admin session is asked for), 500 on a store error, else the rows. */
  function Get(sessionEmail: Option<string>, db: Db, renderId: nat -> string, renderDate: Order -> string,
               storeFault: bool): (r: (Reply, Option<seq<Record>>))
    ensures r.0.status == 401 <==> !Truthy(sessionEmail)
    ensures r.1.Some? <==> r.0.status == 200
    ensures r.1.Some? ==> |r.1.value| == |AllMerchOrders(db.orders, db.users)|
    ensures !Truthy(sessionEmail) ==> r == (Reply(401, Some("Unauthorized")), None)
    ensures Truthy(sessionEmail) && storeFault ==> r == (Reply(500, Some("Failed to export merchandise orders")), None)
    ensures Truthy(sessionEmail) && !storeFault ==>
      r == (Reply(200, None), Some(ExportData(AllMerchOrders(db.orders, db.users), renderId, renderDate)))
  {
    if !Truthy(sessionEmail) then (Reply(401, Some("Unauthorized")), None)
    else if storeFault then (Reply(500, Some("Failed to export merchandise orders")), None)
    else (Reply(200, None), Some(ExportData(AllMerchOrders(db.orders, db.users), renderId, renderDate)))
  }

  /** Any signed-in user, administrator or not, receives the export. */
  lemma AnyUserCanExport(email: string, db: Db, renderId: nat -> string, renderDate: Order -> string)
    requires email != ""
    ensures Get(Some(email), db, renderId, renderDate, false).0 == Reply(200, None)
  {
  }
}
