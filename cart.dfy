/** The shopping-cart controller: a cart table of (user, game, quantity)
    lines over a read-only game catalog, and the four handlers that list,
    upsert, remove and clear a user's lines.

    The cart table is a sequence of rows in one fixed order (the store
    promises none: the `findMany` calls have no `orderBy`); the
    composite-unique constraint on (UsuarioID, JuegoID) is the invariant
    `UniqueKeys`. */
module Cart {
  import opened Common
  import opened JsValues

  /** A game of the catalog (table Juego); the catalog is keyed by JuegoID.
      The price is in cents; `None` stands for a stored price that does not
      parse as a number. */
  datatype Game = Game(name: string, price: Option<int>, image: string)

  /** A row of the cart table (CarritoItem). */
  datatype CartLine = CartLine(user: int, game: int, quantity: int)

  /** One entry of a cart response: `{id, nombre, precio, cantidad, imagen}`. */
  datatype ItemView = ItemView(id: int, name: string, price: Option<int>, quantity: int, image: string)

  /** The body of the list response: `{items, subtotal}`. */
  datatype CartListing = CartListing(items: seq<ItemView>, subtotal: int)

  predicate HasKey(l: CartLine, user: int, game: int) {
    l.user == user && l.game == game
  }

  /** The composite-unique constraint on (user, game). */
  predicate UniqueKeys(lines: seq<CartLine>) {
    forall i, j :: 0 <= i < j < |lines| ==> !HasKey(lines[j], lines[i].user, lines[i].game)
  }

  /** Every line references a catalog game (the relation behind the join). */
  predicate Linked(catalog: map<int, Game>, lines: seq<CartLine>) {
    forall l | l in lines :: l.game in catalog
  }

  /** The invariant of the cart table: unique keys, linked games and
      positive quantities. */
  predicate WellFormed(catalog: map<int, Game>, lines: seq<CartLine>) {
    && UniqueKeys(lines)
    && Linked(catalog, lines)
    && forall l | l in lines :: l.quantity >= 1
  }

  /** The store's lookup by the composite key: the position of the line of
      `user` for `game`, if there is one. */
  function Find(lines: seq<CartLine>, user: int, game: int): (r: Option<nat>)
    ensures r.Some? ==> r.value < |lines| && HasKey(lines[r.value], user, game)
    ensures r.None? ==> forall i :: 0 <= i < |lines| ==> !HasKey(lines[i], user, game)
  {
    if lines == [] then None
    else if HasKey(lines[0], user, game) then Some(0)
    else match Find(lines[1..], user, game)
      case None => None
      case Some(k) => Some(k + 1)
  }

  /** The key-level view of the cart table: the quantity stored for
      (user, game), `None` when there is no such line. */
  function Quantity(lines: seq<CartLine>, user: int, game: int): Option<int>
  {
    match Find(lines, user, game)
    case None => None
    case Some(i) => Some(lines[i].quantity)
  }

  // ----- Store operations -----

  /** `update` of the existing line's quantity, or `create` of a new line. */
  function Upserted(lines: seq<CartLine>, user: int, game: int, quantity: int): seq<CartLine>
  {
    match Find(lines, user, game)
    case Some(i) => lines[i := lines[i].(quantity := quantity)]
    case None => lines + [CartLine(user, game, quantity)]
  }

  /** `delete` of the row at position `i`. */
  function Deleted(lines: seq<CartLine>, i: nat): seq<CartLine>
    requires i < |lines|
  {
    lines[..i] + lines[i + 1..]
  }

  /** `deleteMany` of every line of `user`. */
  function WithoutUser(lines: seq<CartLine>, user: int): (r: seq<CartLine>)
    ensures forall l :: l in r <==> l in lines && l.user != user
  {
    if lines == [] then []
    else if lines[0].user == user then WithoutUser(lines[1..], user)
    else [lines[0]] + WithoutUser(lines[1..], user)
  }

  // ----- The response views -----

  /** The item view of a line, joined with its game. */
  function View(catalog: map<int, Game>, l: CartLine): ItemView
    requires l.game in catalog
  {
    var g := catalog[l.game];
    ItemView(l.game, g.name, g.price, l.quantity, g.image)
  }

  /** `findMany` of the user's lines, joined and mapped to item views. */
  function ItemsOf(catalog: map<int, Game>, lines: seq<CartLine>, user: int): seq<ItemView>
    requires Linked(catalog, lines)
  {
    if lines == [] then []
    else (if lines[0].user == user then [View(catalog, lines[0])] else [])
         + ItemsOf(catalog, lines[1..], user)
  }

  /** `precio || 0`: a price that did not parse counts as zero. */
  function PriceOrZero(price: Option<int>): int {
    match price
    case None => 0
    case Some(p) => p
  }

  /** The `reduce` over the item views: the sum of price times quantity. */
  function Subtotal(items: seq<ItemView>): int {
    if items == [] then 0
    else PriceOrZero(items[0].price) * items[0].quantity + Subtotal(items[1..])
  }

  /** What one line contributes to the cart total of `user`. */
  function Share(catalog: map<int, Game>, l: CartLine, user: int): int
    requires l.game in catalog
  {
    if l.user == user then PriceOrZero(catalog[l.game].price) * l.quantity else 0
  }

  /** The cart total of `user` over the table itself. */
  function CartTotal(catalog: map<int, Game>, lines: seq<CartLine>, user: int): int
    requires Linked(catalog, lines)
  {
    if lines == [] then 0
    else Share(catalog, lines[0], user) + CartTotal(catalog, lines[1..], user)
  }

  // ----- Lemmas about the key-level view -----

  /** Under the uniqueness constraint, the line at `k` is the one the key
      lookup finds. */
  lemma QuantityAt(lines: seq<CartLine>, k: nat)
    requires UniqueKeys(lines) && k < |lines|
    ensures Find(lines, lines[k].user, lines[k].game) == Some(k)
    ensures Quantity(lines, lines[k].user, lines[k].game) == Some(lines[k].quantity)
  {
    assert Find(lines, lines[k].user, lines[k].game).Some?;
  }

  /** An upsert stores `quantity` under (user, game), keeps the uniqueness
      constraint (so there is exactly one line for the key), and leaves every
      other key as it was. */
  lemma UpsertedQuantity(lines: seq<CartLine>, user: int, game: int, quantity: int, u: int, g: int)
    requires UniqueKeys(lines)
    ensures UniqueKeys(Upserted(lines, user, game, quantity))
    ensures Quantity(Upserted(lines, user, game, quantity), u, g)
         == if u == user && g == game then Some(quantity) else Quantity(lines, u, g)
  {
    var r := Upserted(lines, user, game, quantity);
    match Find(lines, user, game)
    case Some(i) =>
      assert |r| == |lines|;
      assert forall k :: 0 <= k < |r| ==> r[k].user == lines[k].user && r[k].game == lines[k].game;
      assert UniqueKeys(r);
      QuantityAt(r, i);
      if !(u == user && g == game) {
        match Find(lines, u, g)
        case Some(k) =>
          QuantityAt(r, k);
        case None =>
          assert forall k :: 0 <= k < |r| ==> !HasKey(r[k], u, g);
      }
    case None =>
      assert forall k :: 0 <= k < |lines| ==> r[k] == lines[k];
      assert UniqueKeys(r);
      QuantityAt(r, |lines|);
      if !(u == user && g == game) {
        match Find(lines, u, g)
        case Some(k) =>
          QuantityAt(r, k);
        case None =>
          assert forall k :: 0 <= k < |r| ==> !HasKey(r[k], u, g);
      }
  }

  /** Adding the same game twice keeps the second quantity, not the sum:
      adding 2 and then 7 leaves 7. */
  lemma UpsertOverwrites(lines: seq<CartLine>, user: int, game: int, first: int, second: int)
    requires UniqueKeys(lines)
    ensures Quantity(Upserted(Upserted(lines, user, game, first), user, game, second), user, game) == Some(second)
    ensures Find(Upserted(lines, user, game, first), user, game).Some?
  {
    UpsertedQuantity(lines, user, game, first, user, game);
    UpsertedQuantity(Upserted(lines, user, game, first), user, game, second, user, game);
  }

  /** An upsert of a catalog game with a positive quantity keeps the table
      well formed. */
  lemma UpsertedWellFormed(catalog: map<int, Game>, lines: seq<CartLine>, user: int, game: int, quantity: int)
    requires WellFormed(catalog, lines) && game in catalog && quantity >= 1
    ensures WellFormed(catalog, Upserted(lines, user, game, quantity))
  {
    UpsertedQuantity(lines, user, game, quantity, user, game);
    var r := Upserted(lines, user, game, quantity);
    forall l | l in r
      ensures l.game in catalog && l.quantity >= 1
    {
      var k :| 0 <= k < |r| && r[k] == l;
      match Find(lines, user, game)
      case Some(i) =>
        if k != i { assert l == lines[k]; }
      case None =>
        if k < |lines| { assert l == lines[k]; }
    }
  }

  /** Deleting the row at position `i` removes exactly its key. */
  lemma DeletedQuantity(lines: seq<CartLine>, i: nat, u: int, g: int)
    requires UniqueKeys(lines) && i < |lines|
    ensures UniqueKeys(Deleted(lines, i))
    ensures Quantity(Deleted(lines, i), u, g)
         == if HasKey(lines[i], u, g) then None else Quantity(lines, u, g)
  {
    var r := Deleted(lines, i);
    assert |r| == |lines| - 1;
    assert forall k :: 0 <= k < |r| ==> r[k] == lines[if k < i then k else k + 1];
    assert UniqueKeys(r) by {
      forall a, b | 0 <= a < b < |r|
        ensures !HasKey(r[b], r[a].user, r[a].game)
      {
        var a', b' := (if a < i then a else a + 1), (if b < i then b else b + 1);
        assert a' < b';
      }
    }
    if HasKey(lines[i], u, g) {
      forall k | 0 <= k < |r|
        ensures !HasKey(r[k], u, g)
      {
        var k' := if k < i then k else k + 1;
        assert k' != i;
        if k' < i {
          assert !HasKey(lines[i], lines[k'].user, lines[k'].game);
        } else {
          assert !HasKey(lines[k'], lines[i].user, lines[i].game);
        }
      }
    } else {
      match Find(lines, u, g)
      case Some(k) =>
        assert k != i;
        var k' := if k < i then k else k - 1;
        assert r[k'] == lines[k];
        QuantityAt(r, k');
      case None =>
        assert forall k :: 0 <= k < |r| ==> !HasKey(r[k], u, g);
    }
  }

  lemma DeletedWellFormed(catalog: map<int, Game>, lines: seq<CartLine>, i: nat)
    requires WellFormed(catalog, lines) && i < |lines|
    ensures WellFormed(catalog, Deleted(lines, i))
  {
    DeletedQuantity(lines, i, 0, 0);
    var r := Deleted(lines, i);
    forall l | l in r
      ensures l in lines
    {
      var k :| 0 <= k < |r| && r[k] == l;
      assert l == lines[if k < i then k else k + 1];
    }
  }

  lemma {:induction false} UniqueKeysTail(lines: seq<CartLine>)
    requires lines != [] && UniqueKeys(lines)
    ensures UniqueKeys(lines[1..])
  {
    var t := lines[1..];
    forall a, b | 0 <= a < b < |t|
      ensures !HasKey(t[b], t[a].user, t[a].game)
    {
      assert t[a] == lines[a + 1] && t[b] == lines[b + 1];
    }
  }

  lemma UniqueKeysCons(l: CartLine, rest: seq<CartLine>)
    requires UniqueKeys(rest)
    requires forall x | x in rest :: !HasKey(x, l.user, l.game)
    ensures UniqueKeys([l] + rest)
  {
    var s := [l] + rest;
    forall a, b | 0 <= a < b < |s|
      ensures !HasKey(s[b], s[a].user, s[a].game)
    {
      assert s[b] == rest[b - 1];
      if a > 0 {
        assert s[a] == rest[a - 1];
      }
    }
  }

  /** Clearing a user's cart keeps the table well formed. */
  lemma {:induction false} WithoutUserWellFormed(catalog: map<int, Game>, lines: seq<CartLine>, user: int)
    requires WellFormed(catalog, lines)
    ensures WellFormed(catalog, WithoutUser(lines, user))
  {
    if lines != [] {
      var rest := lines[1..];
      UniqueKeysTail(lines);
      assert forall l | l in rest :: l in lines;
      WithoutUserWellFormed(catalog, rest, user);
      if lines[0].user != user {
        var l := lines[0];
        forall x | x in WithoutUser(rest, user)
          ensures !HasKey(x, l.user, l.game)
        {
          var k :| 0 <= k < |rest| && rest[k] == x;
          assert lines[k + 1] == x;
        }
        UniqueKeysCons(l, WithoutUser(rest, user));
      }
    }
  }

  /** Clearing removes every key of `user` and no key of anyone else. */
  lemma {:induction false} WithoutUserQuantity(lines: seq<CartLine>, user: int, u: int, g: int)
    ensures Quantity(WithoutUser(lines, user), u, g)
         == if u == user then None else Quantity(lines, u, g)
  {
    if lines != [] {
      var rest := lines[1..];
      WithoutUserQuantity(rest, user, u, g);
      var r := WithoutUser(lines, user);
      if lines[0].user != user {
        assert r == [lines[0]] + WithoutUser(rest, user);
        assert r[1..] == WithoutUser(rest, user);
      }
    }
  }

  /** Clearing twice is clearing once. */
  lemma {:induction false} WithoutUserIdempotent(lines: seq<CartLine>, user: int)
    ensures WithoutUser(WithoutUser(lines, user), user) == WithoutUser(lines, user)
  {
    if lines != [] {
      var rest := lines[1..];
      WithoutUserIdempotent(rest, user);
      if lines[0].user != user {
        var r := WithoutUser(lines, user);
        assert r[0] == lines[0] && r[1..] == WithoutUser(rest, user);
      }
    }
  }

  // ----- Lemmas about the response views -----

  lemma {:induction false} CartTotalConcat(catalog: map<int, Game>, a: seq<CartLine>, b: seq<CartLine>, user: int)
    requires Linked(catalog, a) && Linked(catalog, b)
    ensures Linked(catalog, a + b)
    ensures CartTotal(catalog, a + b, user) == CartTotal(catalog, a, user) + CartTotal(catalog, b, user)
  {
    if a == [] {
      assert a + b == b;
    } else {
      assert (a + b)[0] == a[0] && (a + b)[1..] == a[1..] + b;
      assert forall l | l in a[1..] :: l in a;
      CartTotalConcat(catalog, a[1..], b, user);
    }
  }

  lemma {:induction false} SubtotalConcat(a: seq<ItemView>, b: seq<ItemView>)
    ensures Subtotal(a + b) == Subtotal(a) + Subtotal(b)
  {
    if a == [] {
      assert a + b == b;
    } else {
      assert (a + b)[0] == a[0] && (a + b)[1..] == a[1..] + b;
      SubtotalConcat(a[1..], b);
    }
  }

  /** The subtotal computed from the item views equals the sum of price
      times quantity over the user's lines of the table; an empty cart has
      subtotal 0. */
  lemma {:induction false} SubtotalIsCartTotal(catalog: map<int, Game>, lines: seq<CartLine>, user: int)
    requires Linked(catalog, lines)
    ensures Subtotal(ItemsOf(catalog, lines, user)) == CartTotal(catalog, lines, user)
    ensures (forall l | l in lines :: l.user != user) ==> ItemsOf(catalog, lines, user) == [] && CartTotal(catalog, lines, user) == 0
  {
    if lines != [] {
      var rest := lines[1..];
      assert forall l | l in rest :: l in lines;
      SubtotalIsCartTotal(catalog, rest, user);
      var head := if lines[0].user == user then [View(catalog, lines[0])] else [];
      SubtotalConcat(head, ItemsOf(catalog, rest, user));
      if head != [] {
        assert head[1..] == [];
      }
    }
  }

  /** Replacing the row at `i` swaps its share of every total for the new
      row's share. */
  lemma ReplacedTotal(catalog: map<int, Game>, lines: seq<CartLine>, i: nat, line: CartLine, u: int)
    requires Linked(catalog, lines) && i < |lines| && line.game in catalog
    ensures Linked(catalog, lines[i := line])
    ensures CartTotal(catalog, lines[i := line], u)
         == CartTotal(catalog, lines, u) - Share(catalog, lines[i], u) + Share(catalog, line, u)
  {
    var pre, post := lines[..i], lines[i + 1..];
    assert lines == pre + [lines[i]] + post;
    assert lines[i := line] == pre + [line] + post;
    assert forall l | l in pre :: l in lines;
    assert forall l | l in post :: l in lines;
    assert Linked(catalog, [lines[i]]) && Linked(catalog, [line]);
    assert CartTotal(catalog, [lines[i]], u) == Share(catalog, lines[i], u);
    assert CartTotal(catalog, [line], u) == Share(catalog, line, u);
    CartTotalConcat(catalog, pre, [lines[i]], u);
    CartTotalConcat(catalog, pre + [lines[i]], post, u);
    CartTotalConcat(catalog, pre, [line], u);
    CartTotalConcat(catalog, pre + [line], post, u);
  }

  /** An upsert changes the user's total by the new quantity's amount
      instead of the old one's, and leaves every other user's total as it
      was. */
  lemma UpsertedTotal(catalog: map<int, Game>, lines: seq<CartLine>, user: int, game: int, quantity: int, u: int)
    requires Linked(catalog, lines) && game in catalog
    ensures Linked(catalog, Upserted(lines, user, game, quantity))
    ensures var price := PriceOrZero(catalog[game].price);
            var before := match Quantity(lines, user, game) case None => 0 case Some(q) => q;
            CartTotal(catalog, Upserted(lines, user, game, quantity), u)
              == CartTotal(catalog, lines, u) + (if u == user then quantity * price - before * price else 0)
  {
    var line := CartLine(user, game, quantity);
    match Find(lines, user, game)
    case Some(i) =>
      ReplacedTotal(catalog, lines, i, line, u);
      assert lines[i].(quantity := quantity) == line;
    case None =>
      assert Linked(catalog, [line]);
      assert CartTotal(catalog, [line], u) == Share(catalog, line, u);
      CartTotalConcat(catalog, lines, [line], u);
  }

  /** A deletion takes the deleted line's share off its owner's total and
      leaves every other user's total as it was. */
  lemma DeletedTotal(catalog: map<int, Game>, lines: seq<CartLine>, i: nat, u: int)
    requires Linked(catalog, lines) && i < |lines|
    ensures Linked(catalog, Deleted(lines, i))
    ensures CartTotal(catalog, Deleted(lines, i), u)
         == CartTotal(catalog, lines, u)
            - (if lines[i].user == u then PriceOrZero(catalog[lines[i].game].price) * lines[i].quantity else 0)
  {
    var pre, post := lines[..i], lines[i + 1..];
    assert lines == pre + [lines[i]] + post;
    assert forall l | l in pre :: l in lines;
    assert forall l | l in post :: l in lines;
    assert Linked(catalog, [lines[i]]);
    assert CartTotal(catalog, [lines[i]], u) == Share(catalog, lines[i], u);
    CartTotalConcat(catalog, pre, [lines[i]], u);
    CartTotalConcat(catalog, pre + [lines[i]], post, u);
    CartTotalConcat(catalog, pre, post, u);
  }

  /** After a clear the user's cart lists nothing and every other user's
      cart lists what it did before. */
  lemma {:induction false} WithoutUserItems(catalog: map<int, Game>, lines: seq<CartLine>, user: int, u: int)
    requires Linked(catalog, lines)
    ensures Linked(catalog, WithoutUser(lines, user))
    ensures ItemsOf(catalog, WithoutUser(lines, user), u)
         == if u == user then [] else ItemsOf(catalog, lines, u)
  {
    if lines != [] {
      var rest := lines[1..];
      assert forall l | l in rest :: l in lines;
      WithoutUserItems(catalog, rest, user, u);
      if lines[0].user != user {
        var r := WithoutUser(lines, user);
        assert r[0] == lines[0] && r[1..] == WithoutUser(rest, user);
      }
    }
  }

  /** Every listed item is the join of one line of the user with its
      catalog game: id and quantity from the line, name, price and image
      from the game. */
  lemma {:induction false} ItemsFromLines(catalog: map<int, Game>, lines: seq<CartLine>, user: int, k: nat)
    requires Linked(catalog, lines) && k < |ItemsOf(catalog, lines, user)|
    ensures exists j :: (0 <= j < |lines| && lines[j].user == user && lines[j].game in catalog
                         && ItemsOf(catalog, lines, user)[k] == View(catalog, lines[j]))
  {
    var rest := lines[1..];
    assert forall l | l in rest :: l in lines;
    var items := ItemsOf(catalog, lines, user);
    if lines[0].user == user && k == 0 {
      assert lines[0] in lines;
      assert items[0] == View(catalog, lines[0]);
    } else {
      var k' := if lines[0].user == user then k - 1 else k;
      assert items[k] == ItemsOf(catalog, rest, user)[k'];
      ItemsFromLines(catalog, rest, user, k');
      var j :| 0 <= j < |rest| && rest[j].user == user && rest[j].game in catalog
               && items[k] == View(catalog, rest[j]);
      assert lines[j + 1] == rest[j];
    }
  }

  /** The listed items are exactly the user's cart: an item for `game` with
      `quantity` is listed if and only if the table holds that quantity for
      (user, game). */
  lemma {:induction false} ItemsMatchCart(catalog: map<int, Game>, lines: seq<CartLine>, user: int, game: int, quantity: int)
    requires WellFormed(catalog, lines)
    ensures (exists k :: 0 <= k < |ItemsOf(catalog, lines, user)|
               && ItemsOf(catalog, lines, user)[k].id == game
               && ItemsOf(catalog, lines, user)[k].quantity == quantity)
        <==> Quantity(lines, user, game) == Some(quantity)
  {
    var items := ItemsOf(catalog, lines, user);
    if lines != [] {
      var rest := lines[1..];
      assert forall l | l in rest :: l in lines;
      UniqueKeysTail(lines);
      ItemsMatchCart(catalog, rest, user, game, quantity);
      var head := if lines[0].user == user then [View(catalog, lines[0])] else [];
      assert items == head + ItemsOf(catalog, rest, user);
      if HasKey(lines[0], user, game) {
        assert items[0].id == game && items[0].quantity == lines[0].quantity;
        forall k | 0 < k < |items|
          ensures items[k].id != game
        {
          ItemsFromLines(catalog, rest, user, k - 1);
          var j :| 0 <= j < |rest| && rest[j].user == user && rest[j].game in catalog
                   && items[k] == View(catalog, rest[j]);
          assert lines[j + 1] == rest[j];
        }
      } else {
        forall k | 0 <= k < |items|
          ensures (items[k].id == game && items[k].quantity == quantity)
              <==> (k >= |head| && ItemsOf(catalog, rest, user)[k - |head|].id == game
                    && ItemsOf(catalog, rest, user)[k - |head|].quantity == quantity)
        {
        }
        if Quantity(rest, user, game) == Some(quantity) {
          var k :| 0 <= k < |ItemsOf(catalog, rest, user)| && ItemsOf(catalog, rest, user)[k].id == game
                   && ItemsOf(catalog, rest, user)[k].quantity == quantity;
          assert items[k + |head|] == ItemsOf(catalog, rest, user)[k];
        }
      }
    }
  }

  /** The cart table, held by the router, with the four handlers. */
  class CartStore {
    var catalog: map<int, Game>
    var lines: seq<CartLine>

    ghost predicate Valid()
      reads this
    {
      WellFormed(catalog, lines)
    }

    constructor (catalog: map<int, Game>, lines: seq<CartLine>)
      requires WellFormed(catalog, lines)
      ensures Valid() && this.catalog == catalog && this.lines == lines
    {
      this.catalog := catalog;
      this.lines := lines;
    }

    /** GET `/`: the caller's items and their subtotal. */
    method List(user: Option<int>) returns (r: Outcome<CartListing>)
      requires Valid()
      ensures user.None? ==> r == Refused(Unauthorized)
      ensures user.Some? ==> (r.Done? && r.status == Ok
                              && r.value.items == ItemsOf(catalog, lines, user.value)
                              && r.value.subtotal == CartTotal(catalog, lines, user.value))
    {
      if user.None? {
        return Refused(Unauthorized);
      }
      var items := ItemsOf(catalog, lines, user.value);
      var subtotal := Subtotal(items);
      SubtotalIsCartTotal(catalog, lines, user.value);
      r := Done(Ok, CartListing(items, subtotal));
    }

    /** POST `/items`: set the quantity of `game` in the caller's cart,
        creating the line if there is none, and return the caller's cart. */
    method Add(user: Option<int>, game: Option<int>, quantity: Option<int>) returns (r: Outcome<seq<ItemView>>)
      requires Valid()
      modifies this`lines
      ensures Valid()
      ensures user.None? ==> r == Refused(Unauthorized) && lines == old(lines)
      ensures user.Some? && (game.None? || quantity.None? || quantity.value < 1)
              ==> r == Refused(BadRequest) && lines == old(lines)
      ensures user.Some? && game.Some? && quantity.Some? && quantity.value >= 1 && game.value !in catalog
              ==> r == Refused(NotFound) && lines == old(lines)
      ensures user.Some? && game.Some? && quantity.Some? && quantity.value >= 1 && game.value in catalog
              ==> lines == Upserted(old(lines), user.value, game.value, quantity.value)
                  && r == Done(Ok, ItemsOf(catalog, lines, user.value))
    {
      if user.None? {
        return Refused(Unauthorized);
      }
      if game.None? || quantity.None? || quantity.value < 1 {
        return Refused(BadRequest);
      }
      var u, g, q := user.value, game.value, quantity.value;
      if g !in catalog {
        return Refused(NotFound);
      }
      UpsertedWellFormed(catalog, lines, u, g, q);
      var existing := Find(lines, u, g);
      if existing.Some? {
        var i := existing.value;
        lines := lines[i := lines[i].(quantity := q)];
      } else {
        lines := lines + [CartLine(u, g, q)];
      }
      r := Done(Ok, ItemsOf(catalog, lines, u));
    }

    /** DELETE `/items/:JuegoID`: delete the caller's line for the game named
        by the path segment and return the caller's cart. */
    method Remove(user: Option<int>, gameText: string) returns (r: Outcome<seq<ItemView>>)
      requires Valid()
      modifies this`lines
      ensures Valid()
      ensures user.None? ==> r == Refused(Unauthorized) && lines == old(lines)
      ensures user.Some? && ParseInt(gameText).None? ==> r == Refused(BadRequest) && lines == old(lines)
      ensures user.Some? && ParseInt(gameText).Some? && Quantity(old(lines), user.value, ParseInt(gameText).value).None?
              ==> r == Refused(NotFound) && lines == old(lines)
      ensures user.Some? && ParseInt(gameText).Some? && Find(old(lines), user.value, ParseInt(gameText).value).Some?
              ==> lines == Deleted(old(lines), Find(old(lines), user.value, ParseInt(gameText).value).value)
                  && r == Done(Ok, ItemsOf(catalog, lines, user.value))
    {
      var game := ParseInt(gameText);
      if user.None? {
        return Refused(Unauthorized);
      }
      if game.None? {
        return Refused(BadRequest);
      }
      var u, g := user.value, game.value;
      var found := Find(lines, u, g);
      if found.None? {
        return Refused(NotFound);
      }
      DeletedWellFormed(catalog, lines, found.value);
      lines := Deleted(lines, found.value);
      r := Done(Ok, ItemsOf(catalog, lines, u));
    }

    /** DELETE `/`: delete every line of the caller. */
    method Clear(user: Option<int>) returns (status: Status)
      requires Valid()
      modifies this`lines
      ensures Valid()
      ensures user.None? ==> status == Unauthorized && lines == old(lines)
      ensures user.Some? ==> status == Ok && lines == WithoutUser(old(lines), user.value)
    {
      if user.None? {
        return Unauthorized;
      }
      WithoutUserWellFormed(catalog, lines, user.value);
      lines := WithoutUser(lines, user.value);
      status := Ok;
    }
  }
}
