/**
 * The merchandise grid of `components/merch-grid.tsx`: the search-and-sort
 * effect that derives `filteredMerch` from `merch`, and the handlers that
 * update the product modal, the favourites, the quantity and the order
 * banner.
 */
module MerchGrid {
  import opened Common
  import opened ClientCommon

  /** The fields of a merchandise item the grid reads. */
  datatype Item = Item(id: string, title: string, description: string, price: int)

  // ---------------------------------------------------------------------------
  // Search and sort
  // ---------------------------------------------------------------------------

  predicate Matches(item: Item, term: string)
  {
    MatchesSearch(item.title, item.description, term)
  }

  /** `merch.filter(...)` with the search term. */
  function SearchFilter(merch: seq<Item>, term: string): seq<Item>
  {
    Filter((item: Item) => Matches(item, term), merch)
  }

  /** With an empty term the search keeps every item, in order. */
  lemma EmptySearchKeepsAll(merch: seq<Item>)
    ensures SearchFilter(merch, "") == merch
  {
    forall i | 0 <= i < |merch| ensures Matches(merch[i], "") {
      EmptyTermMatches(merch[i].title, merch[i].description);
    }
    FilterKeepsAll((item: Item) => Matches(item, ""), merch);
  }

  /**
   * `a.title.localeCompare(b.title) <= 0`, modelled as the lexicographic
   * order of character codes.
   */
  predicate LexLe(a: string, b: string)
    decreases |a|
  {
    a == [] || (b != [] && (a[0] < b[0] || (a[0] == b[0] && LexLe(a[1..], b[1..]))))
  }

  lemma {:induction false} LexLeTotal(a: string, b: string)
    ensures LexLe(a, b) || LexLe(b, a)
    decreases |a|
  {
    if a != [] && b != [] && a[0] == b[0] {
      LexLeTotal(a[1..], b[1..]);
    }
  }

  lemma {:induction false} LexLeTransitive(a: string, b: string, c: string)
    requires LexLe(a, b) && LexLe(b, c)
    ensures LexLe(a, c)
    decreases |a|
  {
    if a != [] && a[0] == b[0] && b[0] == c[0] {
      LexLeTransitive(a[1..], b[1..], c[1..]);
    }
  }

  /** The comparator of the sort effect; a result of at most 0 keeps `a` before `b`. */
  function Compare(sortBy: string, a: Item, b: Item): int
  {
    match sortBy
    case "price-low" => a.price - b.price
    case "price-high" => b.price - a.price
    case _ => if a.title == b.title then 0 else if LexLe(a.title, b.title) then -1 else 1
  }

  predicate Before(sortBy: string, a: Item, b: Item)
  {
    Compare(sortBy, a, b) <= 0
  }

  /** Each of the three comparators is a total preorder, so sorting by it is well defined. */
  lemma BeforeTotal(sortBy: string, a: Item, b: Item)
    ensures Before(sortBy, a, b) || Before(sortBy, b, a)
  {
    LexLeTotal(a.title, b.title);
  }

  lemma BeforeTransitive(sortBy: string, a: Item, b: Item, c: Item)
    requires Before(sortBy, a, b) && Before(sortBy, b, c)
    ensures Before(sortBy, a, c)
  {
    if sortBy != "price-low" && sortBy != "price-high" {
      if a.title != b.title && b.title != c.title && a.title != c.title {
        LexLeTransitive(a.title, b.title, c.title);
      }
      if a.title == c.title && a.title != b.title {
        LexLeAntisymmetric(a.title, b.title);
      }
    }
  }

  lemma {:induction false} LexLeAntisymmetric(a: string, b: string)
    requires LexLe(a, b) && LexLe(b, a)
    ensures a == b
    decreases |a|
  {
    if a != [] {
      LexLeAntisymmetric(a[1..], b[1..]);
    }
  }

  predicate Sorted(sortBy: string, s: seq<Item>)
  {
    forall i, j :: 0 <= i < j < |s| ==> Before(sortBy, s[i], s[j])
  }

  /** Insertion of one item into a sorted list. */
  function Insert(sortBy: string, x: Item, s: seq<Item>): (r: seq<Item>)
    ensures multiset(r) == multiset(s) + multiset{x}
    ensures |r| == |s| + 1
  {
    if s == [] then [x]
    else if Before(sortBy, x, s[0]) then [x] + s
    else
      assert s == [s[0]] + s[1..];
      [s[0]] + Insert(sortBy, x, s[1..])
  }

  lemma {:induction false} InsertSorted(sortBy: string, x: Item, s: seq<Item>)
    requires Sorted(sortBy, s)
    ensures Sorted(sortBy, Insert(sortBy, x, s))
  {
    if s == [] {
    } else if Before(sortBy, x, s[0]) {
      forall j | 1 <= j < |s| ensures Before(sortBy, x, s[j]) {
        BeforeTransitive(sortBy, x, s[0], s[j]);
      }
    } else {
      BeforeTotal(sortBy, x, s[0]);
      InsertSorted(sortBy, x, s[1..]);
      var t := Insert(sortBy, x, s[1..]);
      forall k | 0 <= k < |t| ensures Before(sortBy, s[0], t[k]) {
        assert t[k] in multiset(t);
        assert t[k] == x || t[k] in multiset(s[1..]);
        if t[k] != x {
          var j :| 0 <= j < |s[1..]| && s[1..][j] == t[k];
          assert s[j + 1] == t[k];
        }
      }
    }
  }

  /** `filtered.sort(comparator)`, modelled as an insertion sort. */
  function Sort(sortBy: string, s: seq<Item>): (r: seq<Item>)
    ensures multiset(r) == multiset(s)
    ensures |r| == |s|
  {
    if s == [] then []
    else
      assert s == [s[0]] + s[1..];
      Insert(sortBy, s[0], Sort(sortBy, s[1..]))
  }

  lemma {:induction false} SortSorted(sortBy: string, s: seq<Item>)
    ensures Sorted(sortBy, Sort(sortBy, s))
  {
    if s != [] {
      SortSorted(sortBy, s[1..]);
      InsertSorted(sortBy, s[0], Sort(sortBy, s[1..]));
    }
  }

  /** The list the grid shows: the search results, sorted. */
  function Shown(merch: seq<Item>, term: string, sortBy: string): seq<Item>
  {
    Sort(sortBy, SearchFilter(merch, term))
  }

  /**
   * The shown list is a permutation of the matching items: an item appears
   * exactly when it is in `merch` and matches, as often as it matches there.
   */
  lemma ShownIsMatchingPermutation(merch: seq<Item>, term: string, sortBy: string)
    ensures multiset(Shown(merch, term, sortBy)) == multiset(SearchFilter(merch, term))
    ensures forall x :: x in Shown(merch, term, sortBy) <==> x in merch && Matches(x, term)
  {
    var f := SearchFilter(merch, term);
    var r := Shown(merch, term, sortBy);
    forall x ensures x in r <==> x in merch && Matches(x, term) {
      assert x in r <==> x in multiset(r);
      assert x in f <==> x in multiset(f);
      if x in merch && Matches(x, term) {
        var i :| 0 <= i < |merch| && merch[i] == x;
        assert merch[i] in f;
      }
      if x in f {
        var i :| 0 <= i < |f| && f[i] == x;
        assert Matches(f[i], term) && f[i] in merch;
      }
    }
  }

  /** The shown list is in the order the sort key asks for. */
  lemma ShownIsOrdered(merch: seq<Item>, term: string, sortBy: string)
    ensures var r := Shown(merch, term, sortBy);
      forall i, j :: 0 <= i < j < |r| ==>
        (sortBy == "price-low" ==> r[i].price <= r[j].price)
        && (sortBy == "price-high" ==> r[i].price >= r[j].price)
        && (sortBy != "price-low" && sortBy != "price-high" ==> LexLe(r[i].title, r[j].title))
  {
    var r := Shown(merch, term, sortBy);
    SortSorted(sortBy, SearchFilter(merch, term));
    forall i, j | 0 <= i < j < |r| && sortBy != "price-low" && sortBy != "price-high"
      ensures LexLe(r[i].title, r[j].title)
    {
      assert Before(sortBy, r[i], r[j]);
      if r[i].title == r[j].title {
        LexLeTotal(r[i].title, r[j].title);
      }
    }
  }

  // ---------------------------------------------------------------------------
  // Favourites and quantity
  // ---------------------------------------------------------------------------

  /** `toggleFavorite`: the new set of favourite ids. */
  function Toggled(favorites: set<string>, merchId: string): (r: set<string>)
    ensures merchId in r <==> merchId !in favorites
    ensures forall other :: other != merchId ==> (other in r <==> other in favorites)
  {
    if merchId in favorites then favorites - {merchId} else favorites + {merchId}
  }

  /** Toggling the same id twice restores the set. */
  lemma ToggleTwice(favorites: set<string>, merchId: string)
    ensures Toggled(Toggled(favorites, merchId), merchId) == favorites
  {
  }

  /** Toggles of different ids commute. */
  lemma TogglesCommute(favorites: set<string>, a: string, b: string)
    ensures Toggled(Toggled(favorites, a), b) == Toggled(Toggled(favorites, b), a)
  {
  }

  /** The minus button: `Math.max(1, quantity - 1)`. */
  function Decrement(quantity: int): (q: int)
    ensures q >= 1
    ensures quantity > 1 ==> q == quantity - 1
  {
    Max(1, quantity - 1)
  }

  /** The plus button undoes the minus button, and the other way round, once the quantity is at least 1. */
  lemma PlusMinusInverse(quantity: int)
    requires quantity >= 1
    ensures Decrement(quantity + 1) == quantity
    ensures quantity > 1 ==> Decrement(quantity) + 1 == quantity
  {
  }

  /** `n` presses of the minus button from any quantity of at least 1 never go below 1 and stop there. */
  function Decrements(quantity: int, n: nat): int
    decreases n
  {
    if n == 0 then quantity else Decrements(Decrement(quantity), n - 1)
  }

  lemma {:induction false} DecrementsFloor(quantity: int, n: nat)
    requires quantity >= 1
    decreases n
    ensures Decrements(quantity, n) == Max(1, quantity - n)
  {
    if n > 0 {
      DecrementsFloor(Decrement(quantity), n - 1);
    }
  }

  /** The label of the order button. */
  function OrderButtonLabel(ordering: Option<string>, productId: string, hasSession: bool,
                            price: int, quantity: int): string
  {
    if ordering == Some(productId) then "Processing..."
    else if !hasSession then "Login to Order"
    else "Add to Cart - ₹" + IntToString(price * quantity)
  }

  /** A signed-in user who is not waiting on this product sees the price times the quantity. */
  lemma LabelShowsTotal(productId: string, price: int, quantity: int)
    ensures OrderButtonLabel(None, productId, true, price, quantity) == "Add to Cart - ₹" + IntToString(price * quantity)
    ensures OrderButtonLabel(Some(productId), productId, true, price, quantity) == "Processing..."
    ensures OrderButtonLabel(None, productId, false, price, quantity) == "Login to Order"
  {
  }

  // ---------------------------------------------------------------------------
  // The handlers
  // ---------------------------------------------------------------------------

  /** The handler-updated part of the component's state. */
  datatype GridState = GridState(selectedProduct: Option<Item>, selectedSize: string, quantity: int,
                                 message: Option<Message>, ordering: Option<string>,
                                 favorites: set<string>, selectedImageIndex: nat)

  /** The order request `handleOrder` sends, with the fields of its JSON body. */
  datatype OrderRequest = OrderRequest(merchId: string, size: string, quantity: int)

  /** What `handleOrder` does besides updating state. */
  datatype OrderAction = NavigateToSignIn | NoRequest | Sent(request: OrderRequest)

  /** `openProductModal(product)` */
  function OpenProductSpec(st: GridState, product: Item): (r: GridState)
    ensures r.selectedProduct == Some(product) && r.selectedImageIndex == 0
    ensures r.selectedSize == "" && r.quantity == 1
    ensures r.message == st.message && r.ordering == st.ordering && r.favorites == st.favorites
  {
    st.(selectedProduct := Some(product), selectedImageIndex := 0, selectedSize := "", quantity := 1)
  }

  /**
   * `handleOrder(merchId, size)`: the guards, then the request with its
   * outcome as a parameter; `ordering` is cleared once the attempt is over.
   */
  function HandleOrderSpec(st: GridState, hasSession: bool, merchId: string, size: string,
                           outcome: FetchOutcome): (OrderAction, GridState)
  {
    if !hasSession then (NavigateToSignIn, st)
    else if size == "" then (NoRequest, st.(message := Some(Message(Error, "Please select a size"))))
    else
      var request := OrderRequest(merchId, size, st.quantity);
      match outcome
      case Ok =>
        (Sent(request), st.(message := Some(Message(Success, "Order placed successfully!")),
                            selectedProduct := None, selectedSize := "", quantity := 1, ordering := None))
      case NotOk(error) =>
        (Sent(request), st.(message := Some(Message(Error, ErrorText(error, "Order failed"))), ordering := None))
      case Threw =>
        (Sent(request), st.(message := Some(Message(Error, GenericError)), ordering := None))
  }

  /** Without a session, or without a size, no request is sent. */
  lemma GuardsSendNothing(st: GridState, hasSession: bool, merchId: string, size: string, outcome: FetchOutcome)
    requires !hasSession || size == ""
    ensures HandleOrderSpec(st, hasSession, merchId, size, outcome).0 != Sent(OrderRequest(merchId, size, st.quantity))
    ensures !hasSession ==> HandleOrderSpec(st, hasSession, merchId, size, outcome) == (NavigateToSignIn, st)
    ensures hasSession ==>
      (HandleOrderSpec(st, hasSession, merchId, size, outcome).1
         == st.(message := Some(Message(Error, "Please select a size"))))
  {
  }

  /**
   * A sent order carries the current quantity; a successful one closes the
   * modal and resets the size and the quantity just as opening a product
   * does, and every completed attempt leaves `ordering` cleared.
   */
  lemma OrderOutcomes(st: GridState, merchId: string, size: string, outcome: FetchOutcome, product: Item)
    requires size != ""
    ensures var (action, st') := HandleOrderSpec(st, true, merchId, size, outcome);
      action == Sent(OrderRequest(merchId, size, st.quantity))
      && st'.ordering == None && st'.favorites == st.favorites
      && (outcome.Ok? ==> st'.selectedSize == OpenProductSpec(st, product).selectedSize
                          && st'.quantity == OpenProductSpec(st, product).quantity
                          && st'.selectedProduct == None)
      && (!outcome.Ok? ==> st'.selectedProduct == st.selectedProduct && st'.quantity == st.quantity
                           && st'.message.Some? && st'.message.value.kind == Error)
  {
  }

  /** The component's state. */
  class Grid {
    var merch: seq<Item>
    var filteredMerch: seq<Item>
    var searchTerm: string
    var sortBy: string
    var selectedProduct: Option<Item>
    var selectedSize: string
    var quantity: int
    var message: Option<Message>
    var ordering: Option<string>
    var favorites: set<string>
    var selectedImageIndex: nat

    function State(): GridState
      reads this
    {
      GridState(selectedProduct, selectedSize, quantity, message, ordering, favorites, selectedImageIndex)
    }

    constructor ()
      ensures merch == [] && filteredMerch == [] && searchTerm == "" && sortBy == "name"
      ensures State() == GridState(None, "", 1, None, None, {}, 0)
    {
      merch := [];
      filteredMerch := [];
      searchTerm := "";
      sortBy := "name";
      selectedProduct := None;
      selectedSize := "";
      quantity := 1;
      message := None;
      ordering := None;
      favorites := {};
      selectedImageIndex := 0;
    }

    /** The effect on `[merch, searchTerm, sortBy]`: only `filteredMerch` changes. */
    method ApplyFilters()
      modifies this`filteredMerch
      ensures filteredMerch == Shown(merch, searchTerm, sortBy)
    {
      var filtered := SearchFilter(merch, searchTerm);
      filteredMerch := Sort(sortBy, filtered);
    }

    method OpenProductModal(product: Item)
      modifies this
      ensures State() == OpenProductSpec(old(State()), product)
      ensures merch == old(merch) && filteredMerch == old(filteredMerch)
    {
      selectedProduct := Some(product);
      selectedImageIndex := 0;
      selectedSize := "";
      quantity := 1;
    }

    method ToggleFavorite(merchId: string)
      modifies this`favorites
      ensures favorites == Toggled(old(favorites), merchId)
    {
      var newFavorites := favorites;
      if merchId in newFavorites {
        newFavorites := newFavorites - {merchId};
      } else {
        newFavorites := newFavorites + {merchId};
      }
      favorites := newFavorites;
    }

    method DecrementQuantity()
      modifies this`quantity
      ensures quantity == Decrement(old(quantity))
    {
      quantity := Max(1, quantity - 1);
    }

    method IncrementQuantity()
      modifies this`quantity
      ensures quantity == old(quantity) + 1
    {
      quantity := quantity + 1;
    }

    method HandleOrder(hasSession: bool, merchId: string, size: string, outcome: FetchOutcome)
      returns (action: OrderAction)
      modifies this
      ensures (action, State()) == HandleOrderSpec(old(State()), hasSession, merchId, size, outcome)
      ensures merch == old(merch) && filteredMerch == old(filteredMerch)
    {
      if !hasSession {
        return NavigateToSignIn;
      }
      if size == "" {
        message := Some(Message(Error, "Please select a size"));
        return NoRequest;
      }
      ordering := Some(merchId);
      message := None;
      action := Sent(OrderRequest(merchId, size, quantity));
      match outcome {
        case Ok =>
          message := Some(Message(Success, "Order placed successfully!"));
          selectedProduct := None;
          selectedSize := "";
          quantity := 1;
        case NotOk(error) =>
          message := Some(Message(Error, ErrorText(error, "Order failed")));
        case Threw =>
          message := Some(Message(Error, GenericError));
      }
      ordering := None;
    }
  }
}
