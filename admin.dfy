/**
 * The admin dashboard: its access gate, the add-item form gate with its
 * defaults, the per-item pending restock amounts, and the three statistics.
 */
module Admin {
  import opened Wrappers
  import opened Sequences
  import opened Text
  import opened SweetTypes
  import opened Inventory
  import opened Session

  // ---- access ---------------------------------------------------------------------

  datatype View = Dashboard | RedirectToLogin

  /** The page renders only for an authenticated administrator and redirects otherwise. */
  function AdminView(user: Option<User>): View {
    if user.None? || !user.value.isAdmin then RedirectToLogin else Dashboard
  }

  /**
   * Nobody without a session and no registered user reaches the dashboard; a
   * logged-in user does exactly when "admin" occurs in the email.
   */
  lemma AdminViewReachable(name: string, email: string)
    ensures AdminView(None) == RedirectToLogin
    ensures AdminView(Some(RegisteredUser(name, email))) == RedirectToLogin
    ensures AdminView(Some(LoginUser(email))) == Dashboard <==> exists i :: OccursAt(email, "admin", i)
  {
    LoginAdminIff(email);
  }

  // ---- statistics -----------------------------------------------------------------

  /** "Total Sweets": `sweets.length` */
  function TotalSweets(s: seq<Sweet>): nat {
    |s|
  }

  /** "Total Stock": `sweets.reduce((acc, s) => acc + s.quantity, 0)` */
  function TotalStock(s: seq<Sweet>): int
    decreases |s|
  {
    if s == [] then 0 else TotalStock(s[..|s| - 1]) + s[|s| - 1].quantity
  }

  const SoldOut: Sweet -> bool := (x: Sweet) => x.quantity == 0

  /** "Out of Stock": `sweets.filter(s => s.quantity === 0).length` */
  function OutOfStock(s: seq<Sweet>): nat {
    |Filter(s, SoldOut)|
  }

  /** Adding an item counts one more item, its stock, and one more sold-out item if it has none. */
  lemma StatsAfterAdd(s: seq<Sweet>, f: SweetFields, id: string)
    ensures TotalSweets(Added(s, f, id)) == TotalSweets(s) + 1
    ensures TotalStock(Added(s, f, id)) == TotalStock(s) + f.quantity
    ensures OutOfStock(Added(s, f, id)) == OutOfStock(s) + (if f.quantity == 0 then 1 else 0)
  {
  }

  /** With no negative stock, every item that is not sold out holds at least one unit. */
  lemma {:induction false} StockCoversInStockItems(s: seq<Sweet>)
    requires Stocked(s)
    ensures OutOfStock(s) <= TotalSweets(s)
    ensures TotalStock(s) >= TotalSweets(s) - OutOfStock(s)
    decreases |s|
  {
    if s != [] {
      var init := s[..|s| - 1];
      assert Filter(s, SoldOut) == Filter(init, SoldOut) + (if s[|s| - 1].quantity == 0 then [s[|s| - 1]] else []);
      StockCoversInStockItems(init);
    }
  }

  /** Restocking adds `amount` once for every item that carries the id. */
  lemma {:induction false} StockAfterRestock(s: seq<Sweet>, id: string, amount: int)
    ensures TotalStock(Restocked(s, id, amount)) == TotalStock(s) + amount * CountId(s, id)
    decreases |s|
  {
    if s != [] {
      var init := s[..|s| - 1];
      var hit := if s[|s| - 1].id == id then 1 else 0;
      RestockLastStep(s, id, amount);
      StockAfterRestock(init, id, amount);
      Distribute(amount, CountId(init, id), hit);
    }
  }

  /** One step of the induction above: peel off the last item. */
  lemma RestockLastStep(s: seq<Sweet>, id: string, amount: int)
    requires s != []
    ensures var hit := if s[|s| - 1].id == id then 1 else 0;
      && CountId(s, id) == CountId(s[..|s| - 1], id) + hit
      && TotalStock(Restocked(s, id, amount)) == TotalStock(Restocked(s[..|s| - 1], id, amount)) + s[|s| - 1].quantity + amount * hit
  {
    var init := s[..|s| - 1];
    var last := s[|s| - 1];
    var r := Restocked(s, id, amount);
    assert r[..|r| - 1] == Restocked(init, id, amount);
    assert Filter(s, HasId(id)) == Filter(init, HasId(id)) + (if last.id == id then [last] else []);
  }

  lemma Distribute(a: int, b: int, c: int)
    ensures a * (b + c) == a * b + a * c
  {
  }

  /** A purchase that passes its guard lowers the total stock by exactly one. */
  lemma StockAfterPurchase(s: seq<Sweet>, id: string)
    requires UniqueIds(s)
    requires CanPurchase(s, id)
    ensures TotalStock(Purchased(s, id)) == TotalStock(s) - 1
  {
    PurchaseIsRestockOfMinusOne(s, id);
    StockAfterRestock(s, id, -1);
    var k := Find(s, id).value;
    CountIdUnique(s, id);
    assert s[k].id == id;
  }

  // ---- the add-item form ----------------------------------------------------------

  const DefaultDescription: string := "Delicious sweet treat"
  const DefaultImage: string := "https://images.unsplash.com/photo-1582058091505-f87a2e55a40f?w=400&h=300&fit=crop"

  /** `formData`: the form's text fields as typed, and the chosen category. */
  datatype FormData = FormData(
    name: string,
    category: Category,
    price: string,
    quantity: string,
    description: string,
    image: string)

  const EmptyForm: FormData := FormData("", Chocolate, "", "", "", "")

  /**
   * What `handleAddSweet` passes to `addSweet`, or None when a required field
   * is empty. `price` and `quantity` are the form's price and quantity text as
   * `parseFloat` and `parseInt` read them.
   */
  function NewSweetFrom(form: FormData, price: real, quantity: int): Option<SweetFields> {
    if form.name == "" || form.price == "" || form.quantity == "" then None
    else Some(SweetFields(
      form.name,
      form.category,
      price,
      quantity,
      if form.description == "" then DefaultDescription else form.description,
      if form.image == "" then DefaultImage else form.image))
  }

  /**
   * The form is refused exactly when name, price or quantity is empty; an
   * accepted item keeps the typed name, category and numbers, and gets a
   * non-empty description and image: the typed ones, or the defaults.
   */
  lemma NewSweetGate(form: FormData, price: real, quantity: int)
    ensures NewSweetFrom(form, price, quantity).None? <==> form.name == "" || form.price == "" || form.quantity == ""
    ensures NewSweetFrom(form, price, quantity).Some? ==>
      var f := NewSweetFrom(form, price, quantity).value;
      && f.name == form.name && f.category == form.category
      && f.price == price && f.quantity == quantity
      && f.description != "" && f.image != ""
      && (form.description != "" ==> f.description == form.description)
      && (form.image != "" ==> f.image == form.image)
      && (form.description == "" ==> f.description == DefaultDescription)
      && (form.image == "" ==> f.image == DefaultImage)
  {
  }

  // ---- pending restock amounts -----------------------------------------------------

  /** `restockAmount[id] || 0`: a missing entry counts as zero. */
  function PendingAmount(restock: map<string, int>, id: string): int {
    if id in restock then restock[id] else 0
  }

  /** `parseInt(value) || 0`: text that is not a number (None) is stored as zero. */
  function RestockInput(parsed: Option<int>): int {
    match parsed
    case Some(n) => n
    case None => 0
  }

  // ---- the page ---------------------------------------------------------------------

  /** The dashboard's own state, and the inventory store it acts on. */
  class AdminPage {
    const store: SweetStore
    var form: FormData
    var addDialogOpen: bool
    var restockAmount: map<string, int>

    constructor (store: SweetStore)
      ensures this.store == store
      ensures form == EmptyForm && !addDialogOpen && restockAmount == map[]
    {
      this.store := store;
      form := EmptyForm;
      addDialogOpen := false;
      restockAmount := map[];
    }

    /** The form inputs' `onChange` handlers: the form takes the typed values. */
    method EditForm(f: FormData)
      modifies this
      ensures form == f
      ensures addDialogOpen == old(addDialogOpen) && restockAmount == old(restockAmount)
    {
      form := f;
    }

    /** The dialog's open/close controls. */
    method SetAddDialogOpen(open: bool)
      modifies this
      ensures addDialogOpen == open
      ensures form == old(form) && restockAmount == old(restockAmount)
    {
      addDialogOpen := open;
    }

    /**
     * `handleAddSweet`: refuse an incomplete form, otherwise add the item
     * (`id` stands for the clock value), close the dialog and clear the form.
     */
    method HandleAddSweet(price: real, quantity: int, id: string)
      modifies this, store
      ensures restockAmount == old(restockAmount)
      ensures NewSweetFrom(old(form), price, quantity).None? ==>
        store.sweets == old(store.sweets) && form == old(form) && addDialogOpen == old(addDialogOpen)
      ensures NewSweetFrom(old(form), price, quantity).Some? ==>
        && store.sweets == old(store.sweets) + [WithId(NewSweetFrom(old(form), price, quantity).value, id)]
        && form == EmptyForm && !addDialogOpen
    {
      var fields := NewSweetFrom(form, price, quantity);
      if fields.None? {
        return;
      }
      store.AddSweet(fields.value, id);
      addDialogOpen := false;
      form := EmptyForm;
    }

    /** `handleDelete` */
    method HandleDelete(id: string)
      modifies store
      ensures store.sweets == Deleted(old(store.sweets), id)
    {
      store.DeleteSweet(id);
    }

    /** The restock input's `onChange`: store the parsed amount, or zero. */
    method SetRestockInput(id: string, parsed: Option<int>)
      modifies this
      ensures restockAmount == old(restockAmount)[id := RestockInput(parsed)]
      ensures form == old(form) && addDialogOpen == old(addDialogOpen)
    {
      restockAmount := restockAmount[id := RestockInput(parsed)];
    }

    /**
     * `handleRestock`: only a positive pending amount is added, after which
     * that item's entry is reset to zero and the others stay. Because the
     * amount is positive, the inventory invariant is kept.
     */
    method HandleRestock(id: string)
      modifies this, store
      ensures form == old(form) && addDialogOpen == old(addDialogOpen)
      ensures PendingAmount(old(restockAmount), id) > 0 ==>
        && store.sweets == Restocked(old(store.sweets), id, PendingAmount(old(restockAmount), id))
        && restockAmount == old(restockAmount)[id := 0]
      ensures PendingAmount(old(restockAmount), id) <= 0 ==>
        store.sweets == old(store.sweets) && restockAmount == old(restockAmount)
      ensures Consistent(old(store.sweets)) ==> Consistent(store.sweets)
      ensures TotalStock(store.sweets) >= TotalStock(old(store.sweets))
    {
      var amount := PendingAmount(restockAmount, id);
      if amount > 0 {
        StockAfterRestock(store.sweets, id, amount);
        store.RestockSweet(id, amount);
        restockAmount := restockAmount[id := 0];
      }
    }
  }
}
