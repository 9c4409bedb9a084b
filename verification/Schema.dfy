/** The rows of the shop's database, as the services read and write them.
    Money is an integer number of cents. */
module Schema {

  datatype Option<+T> = None | Some(value: T)

  datatype Product = Product(stock: int, version: nat, price: int, active: bool)

  /** `touched` is the row's `updated_at` timestamp. */
  datatype CartRow = CartRow(user: nat, pid: nat, qty: nat, version: nat, touched: nat)

  /** A cart row as a checkout reads it: row id, product and quantity. */
  datatype Line = Line(row: nat, pid: nat, qty: nat)

  datatype OrderStatus = Pending | Confirmed | Processing | Shipped | Delivered | Cancelled

  datatype Order = Order(user: nat, status: OrderStatus, total: int)

  datatype ItemRow = ItemRow(oid: nat, pid: nat, qty: nat, unitPrice: int)

  datatype PaymentStatus = Awaiting | Completed | Failed | Refunded

  datatype PaymentMethod = CreditCard | DebitCard | Cash | WalletBalance

  datatype Payment = Payment(amount: int, status: PaymentStatus, how: PaymentMethod)

  datatype LogReason = Purchase | Restocking

  datatype LogEntry = LogEntry(pid: nat, change: int, reason: LogReason)

  /** The committed tables. `owners` remembers every cart-row id ever committed with its
      user: an id sequence never hands out an id twice. Payments are keyed by their order
      (a one-to-one relation). */
  datatype Db = Db(
    products: map<nat, Product>,
    wallets: map<nat, int>,
    carts: map<nat, CartRow>,
    owners: map<nat, nat>,
    orders: map<nat, Order>,
    items: seq<ItemRow>,
    payments: map<nat, Payment>,
    log: seq<LogEntry>)

  /** True iff the user has a row for the product: the unique (user, product) slot is taken. */
  predicate HasRow(carts: map<nat, CartRow>, user: nat, pid: nat) {
    exists id | id in carts :: carts[id].user == user && carts[id].pid == pid
  }

  /** The unique_together constraint of the cart table, and: live rows were issued to their user. */
  ghost predicate CartsOk(db: Db) {
    && (forall id, id' :: id in db.carts && id' in db.carts && id != id' ==>
          db.carts[id].user != db.carts[id'].user || db.carts[id].pid != db.carts[id'].pid)
    && (forall id :: id in db.carts ==> id in db.owners && db.owners[id] == db.carts[id].user)
  }

  /** The ids of a user's cart rows. */
  function RowsOf(carts: map<nat, CartRow>, user: nat): set<nat> {
    set id | id in carts && carts[id].user == user
  }

  /** `lines` lists the user's cart rows, each once, in whatever order the database returns them. */
  ghost predicate IsCart(carts: map<nat, CartRow>, user: nat, lines: seq<Line>) {
    && (forall i, j :: 0 <= i < j < |lines| ==> lines[i].row != lines[j].row)
    && (forall i :: 0 <= i < |lines| ==>
          lines[i].row in carts
          && carts[lines[i].row].user == user
          && carts[lines[i].row].pid == lines[i].pid
          && carts[lines[i].row].qty == lines[i].qty)
    && (forall id :: id in RowsOf(carts, user) ==> exists i :: 0 <= i < |lines| && lines[i].row == id)
  }

  function RowIds(lines: seq<Line>): set<nat> {
    set i | 0 <= i < |lines| :: lines[i].row
  }

  /** No two lines name the same product. */
  predicate Distinct(lines: seq<Line>) {
    forall i, j :: 0 <= i < j < |lines| ==> lines[i].pid != lines[j].pid
  }

  /** A cart has at most one line per product, because the table has. */
  lemma CartIsDistinct(db: Db, user: nat, lines: seq<Line>)
    requires CartsOk(db) && IsCart(db.carts, user, lines)
    ensures Distinct(lines)
  {
    forall i, j | 0 <= i < j < |lines| ensures lines[i].pid != lines[j].pid {
      assert db.carts[lines[i].row].user == db.carts[lines[j].row].user;
    }
  }

  lemma SubsetSize(a: set<nat>, b: set<nat>)
    requires a <= b
    ensures |a| <= |b|
  {
    assert b == a + (b - a);
  }

  /** There is always a number above every used one. */
  lemma {:induction false} FreshNat(used: set<nat>) returns (n: nat)
    ensures forall k :: k in used ==> k < n
  {
    if used == {} {
      n := 0;
    } else {
      var k :| k in used;
      var m := FreshNat(used - {k});
      assert forall j :: j in used ==> j == k || j in used - {k};
      n := if m > k then m else k + 1;
    }
  }
}
