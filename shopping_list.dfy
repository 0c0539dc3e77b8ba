/**
 * The shopping-list export: the amount rows of the recipes in a user's cart, grouped by
 * (ingredient name, measurement unit), summed, ordered by ingredient name, and rendered as
 * text with one line per group, fields joined by a tab and lines joined by a newline.
 */
module ShoppingList {
  import opened Common
  import opened Models

  /** One amount row of a recipe in the cart, joined with its ingredient. */
  datatype Item = Item(name: string, unit: string, amount: int)

  /** One row of the grouped query: ingredient name, measurement unit and summed amount. */
  datatype Line = Line(name: string, unit: string, total: int)

  /**
   * The join: every amount row whose recipe is in `user`'s cart, with its ingredient's name and
   * unit. A cart holds each (user, recipe) pair at most once, so each amount row joins once.
   */
  function CartItems(amounts: seq<AmountRow>, ingredients: map<IngredientId, Ingredient>,
                     cart: seq<Mark>, user: UserId): (r: seq<Item>)
    ensures |r| <= |amounts|
    ensures forall it :: it in r <==>
      exists a :: a in amounts && Mark(user, a.recipe) in cart && a.ingredient in ingredients
        && it == Item(ingredients[a.ingredient].name, ingredients[a.ingredient].unit, a.amount)
  {
    if amounts == [] then []
    else
      var a := amounts[0];
      var head := if Mark(user, a.recipe) in cart && a.ingredient in ingredients
        then [Item(ingredients[a.ingredient].name, ingredients[a.ingredient].unit, a.amount)]
        else [];
      var rest := CartItems(amounts[1..], ingredients, cart, user);
      assert forall b :: b in amounts <==> b == a || b in amounts[1..];
      head + rest
  }

  // ---------------------------------------------------------------------------------------------
  // Ordering by ingredient name

  /** Strict lexicographic order on names, by character code. */
  predicate Before(a: string, b: string)
    decreases |a|
  {
    if a == [] then b != []
    else if b == [] then false
    else if a[0] != b[0] then a[0] < b[0]
    else Before(a[1..], b[1..])
  }

  lemma {:induction false} BeforeIrreflexive(a: string)
    ensures !Before(a, a)
    decreases |a|
  {
    if a != [] {
      BeforeIrreflexive(a[1..]);
    }
  }

  lemma {:induction false} BeforeTransitive(a: string, b: string, c: string)
    requires Before(a, b) && Before(b, c)
    ensures Before(a, c)
    decreases |a|
  {
    if a != [] && a[0] == b[0] && b[0] == c[0] {
      BeforeTransitive(a[1..], b[1..], c[1..]);
    }
  }

  lemma {:induction false} BeforeTotal(a: string, b: string)
    ensures a == b || Before(a, b) || Before(b, a)
    decreases |a|
  {
    if a != [] && b != [] && a[0] == b[0] {
      BeforeTotal(a[1..], b[1..]);
      if a[1..] == b[1..] {
        assert a == [a[0]] + a[1..] && b == [b[0]] + b[1..];
      }
    }
  }

  lemma BeforeAsymmetric(a: string, b: string)
    requires Before(a, b)
    ensures !Before(b, a)
  {
    if Before(b, a) {
      BeforeTransitive(a, b, a);
      BeforeIrreflexive(a);
    }
  }

  /** Rows are in non-decreasing name order. */
  predicate Sorted(lines: seq<Line>) {
    forall i, j :: 0 <= i < j < |lines| ==> !Before(lines[j].name, lines[i].name)
  }

  predicate HasKey(l: Line, name: string, unit: string) {
    l.name == name && l.unit == unit
  }

  /** Some row has this name and unit. */
  predicate Covers(lines: seq<Line>, name: string, unit: string) {
    exists l :: l in lines && HasKey(l, name, unit)
  }

  lemma CoversCons(h: Line, t: seq<Line>)
    ensures forall n, u :: Covers([h] + t, n, u) <==> HasKey(h, n, u) || Covers(t, n, u)
  {
    forall n, u | Covers([h] + t, n, u) && !HasKey(h, n, u) ensures Covers(t, n, u) {
      var l :| l in [h] + t && HasKey(l, n, u);
      assert l in t;
    }
    forall n, u | Covers(t, n, u) ensures Covers([h] + t, n, u) {
      var l :| l in t && HasKey(l, n, u);
      assert l in [h] + t;
    }
    forall n, u | HasKey(h, n, u) ensures Covers([h] + t, n, u) {
      assert h in [h] + t;
    }
  }

  /** Some item has this name and unit. */
  predicate Occurs(items: seq<Item>, name: string, unit: string) {
    exists it :: it in items && it.name == name && it.unit == unit
  }

  /** At most one row per (name, unit). */
  predicate KeysDistinct(lines: seq<Line>) {
    forall i, j :: 0 <= i < j < |lines| ==> !HasKey(lines[j], lines[i].name, lines[i].unit)
  }

  lemma SortedCons(h: Line, t: seq<Line>)
    ensures Sorted([h] + t) <==> Sorted(t) && forall l :: l in t ==> !Before(l.name, h.name)
  {
    var s := [h] + t;
    if Sorted(t) && forall l :: l in t ==> !Before(l.name, h.name) {
      forall i, j | 0 <= i < j < |s| ensures !Before(s[j].name, s[i].name) {
        assert s[j] == t[j - 1];
        if i > 0 {
          assert s[i] == t[i - 1];
        }
      }
    }
    if Sorted(s) {
      forall i, j | 0 <= i < j < |t| ensures !Before(t[j].name, t[i].name) {
        assert t[i] == s[i + 1] && t[j] == s[j + 1];
      }
      forall l | l in t ensures !Before(l.name, h.name) {
        var k :| 0 <= k < |t| && t[k] == l;
        assert s[0] == h && s[k + 1] == l;
      }
    }
  }

  lemma KeysDistinctCons(h: Line, t: seq<Line>)
    ensures KeysDistinct([h] + t) <==> KeysDistinct(t) && forall l :: l in t ==> !HasKey(l, h.name, h.unit)
  {
    var s := [h] + t;
    if KeysDistinct(t) && forall l :: l in t ==> !HasKey(l, h.name, h.unit) {
      forall i, j | 0 <= i < j < |s| ensures !HasKey(s[j], s[i].name, s[i].unit) {
        assert s[j] == t[j - 1];
        if i > 0 {
          assert s[i] == t[i - 1];
        }
      }
    }
    if KeysDistinct(s) {
      forall i, j | 0 <= i < j < |t| ensures !HasKey(t[j], t[i].name, t[i].unit) {
        assert t[i] == s[i + 1] && t[j] == s[j + 1];
      }
      forall l | l in t ensures !HasKey(l, h.name, h.unit) {
        var k :| 0 <= k < |t| && t[k] == l;
        assert s[0] == h && s[k + 1] == l;
      }
    }
  }

  // ---------------------------------------------------------------------------------------------
  // Grouping and summing

  /** Sum of the amounts of the items with this name and unit: the `Sum("amount")` of one group. */
  function SumFor(items: seq<Item>, name: string, unit: string): int {
    if items == [] then 0
    else
      var last := items[|items| - 1];
      SumFor(items[..|items| - 1], name, unit) + (if last.name == name && last.unit == unit then last.amount else 0)
  }

  /** Sum of the totals of the rows with this name and unit. */
  function TotalFor(lines: seq<Line>, name: string, unit: string): int {
    if lines == [] then 0
    else (if HasKey(lines[0], name, unit) then lines[0].total else 0) + TotalFor(lines[1..], name, unit)
  }

  /**
   * Adds one item to the grouped rows: into the row with its name and unit when there is one,
   * otherwise as a new row just before the first row whose name comes after it.
   */
  function AddItem(lines: seq<Line>, it: Item): (r: seq<Line>)
    ensures forall l :: l in r ==> l in lines || HasKey(l, it.name, it.unit)
    ensures forall n, u :: Covers(r, n, u) <==> Covers(lines, n, u) || (n == it.name && u == it.unit)
    ensures forall n, u ::
      TotalFor(r, n, u) == TotalFor(lines, n, u) + (if n == it.name && u == it.unit then it.amount else 0)
  {
    if lines == [] then
      var r := [Line(it.name, it.unit, it.amount)];
      CoversCons(r[0], []);
      assert r == [r[0]] + [];
      assert forall n, u :: TotalFor(r, n, u) == TotalFor(r[1..], n, u) + (if HasKey(r[0], n, u) then it.amount else 0);
      r
    else if HasKey(lines[0], it.name, it.unit) then
      var r := [lines[0].(total := lines[0].total + it.amount)] + lines[1..];
      assert r[1..] == lines[1..];
      assert forall l :: l in lines <==> l == lines[0] || l in lines[1..];
      CoversCons(r[0], lines[1..]);
      CoversCons(lines[0], lines[1..]);
      assert lines == [lines[0]] + lines[1..];
      r
    else if Before(it.name, lines[0].name) then
      var r := [Line(it.name, it.unit, it.amount)] + lines;
      assert r[1..] == lines;
      CoversCons(r[0], lines);
      r
    else
      var rest := AddItem(lines[1..], it);
      var r := [lines[0]] + rest;
      assert r[1..] == rest;
      assert forall l :: l in lines <==> l == lines[0] || l in lines[1..];
      CoversCons(lines[0], rest);
      CoversCons(lines[0], lines[1..]);
      assert lines == [lines[0]] + lines[1..];
      r
  }

  /** The grouped, summed and ordered rows of the items, added one by one. */
  function Aggregate(items: seq<Item>): (r: seq<Line>)
    ensures forall n, u :: Covers(r, n, u) <==> Occurs(items, n, u)
    ensures forall n, u :: TotalFor(r, n, u) == SumFor(items, n, u)
  {
    if items == [] then []
    else
      var front := items[..|items| - 1];
      var last := items[|items| - 1];
      assert forall it :: it in items <==> it in front || it == last;
      AddItem(Aggregate(front), last)
  }

  /** Adding an item keeps the rows ordered by name with one row per (name, unit). */
  lemma {:induction false} AddItemKeepsOrder(lines: seq<Line>, it: Item)
    requires Sorted(lines) && KeysDistinct(lines)
    ensures Sorted(AddItem(lines, it)) && KeysDistinct(AddItem(lines, it))
  {
    if lines == [] {
    } else if HasKey(lines[0], it.name, it.unit) {
      var r := AddItem(lines, it);
      assert r == [r[0]] + lines[1..];
      SortedCons(lines[0], lines[1..]);
      KeysDistinctCons(lines[0], lines[1..]);
      assert lines == [lines[0]] + lines[1..];
      SortedCons(r[0], lines[1..]);
      KeysDistinctCons(r[0], lines[1..]);
    } else if Before(it.name, lines[0].name) {
      var x := Line(it.name, it.unit, it.amount);
      forall l | l in lines ensures !Before(l.name, it.name) && !HasKey(l, it.name, it.unit) {
        var k :| 0 <= k < |lines| && lines[k] == l;
        if l.name != lines[0].name {
          BeforeTotal(l.name, lines[0].name);
          BeforeTransitive(it.name, lines[0].name, l.name);
        }
        BeforeAsymmetric(it.name, l.name);
        BeforeIrreflexive(it.name);
      }
      SortedCons(x, lines);
      KeysDistinctCons(x, lines);
    } else {
      var t := lines[1..];
      assert lines == [lines[0]] + t;
      SortedCons(lines[0], t);
      KeysDistinctCons(lines[0], t);
      AddItemKeepsOrder(t, it);
      var rest := AddItem(t, it);
      forall l | l in rest ensures !Before(l.name, lines[0].name) && !HasKey(l, lines[0].name, lines[0].unit) {
      }
      SortedCons(lines[0], rest);
      KeysDistinctCons(lines[0], rest);
    }
  }

  /** The grouped rows are ordered by name and hold one row per (name, unit). */
  lemma {:induction false} AggregateOrdered(items: seq<Item>)
    ensures Sorted(Aggregate(items)) && KeysDistinct(Aggregate(items))
  {
    if items != [] {
      AggregateOrdered(items[..|items| - 1]);
      AddItemKeepsOrder(Aggregate(items[..|items| - 1]), items[|items| - 1]);
    }
  }

  /** With one row per key, a row's total is the total for its key. */
  lemma {:induction false} TotalOfDistinct(lines: seq<Line>, l: Line)
    requires KeysDistinct(lines) && l in lines
    ensures TotalFor(lines, l.name, l.unit) == l.total
  {
    assert lines == [lines[0]] + lines[1..];
    KeysDistinctCons(lines[0], lines[1..]);
    if lines[0] == l {
      TotalAbsent(lines[1..], l.name, l.unit);
    } else {
      TotalOfDistinct(lines[1..], l);
    }
  }

  lemma {:induction false} TotalAbsent(lines: seq<Line>, name: string, unit: string)
    requires forall l :: l in lines ==> !HasKey(l, name, unit)
    ensures TotalFor(lines, name, unit) == 0
  {
    if lines != [] {
      TotalAbsent(lines[1..], name, unit);
    }
  }

  /**
   * The `Sum("amount")` of one (name, unit) group taken straight over the amount rows: every row
   * of a recipe in `user`'s cart whose ingredient has this name and unit counts once.
   */
  function GroupSum(amounts: seq<AmountRow>, ingredients: map<IngredientId, Ingredient>,
                    cart: seq<Mark>, user: UserId, name: string, unit: string): int
  {
    if amounts == [] then 0
    else
      var a := amounts[0];
      (if Mark(user, a.recipe) in cart && a.ingredient in ingredients && ingredients[a.ingredient] == Ingredient(name, unit)
       then a.amount else 0)
      + GroupSum(amounts[1..], ingredients, cart, user, name, unit)
  }

  lemma {:induction false} SumForConcat(a: seq<Item>, b: seq<Item>, name: string, unit: string)
    ensures SumFor(a + b, name, unit) == SumFor(a, name, unit) + SumFor(b, name, unit)
    decreases |b|
  {
    if b != [] {
      var ab := a + b;
      assert ab[..|ab| - 1] == a + b[..|b| - 1];
      assert ab[|ab| - 1] == b[|b| - 1];
      SumForConcat(a, b[..|b| - 1], name, unit);
    } else {
      assert a + b == a;
    }
  }

  /**
   * Summing the joined items of a group gives the group's sum over the amount rows: the join
   * neither drops nor repeats a row.
   */
  lemma {:induction false} CartItemsSum(amounts: seq<AmountRow>, ingredients: map<IngredientId, Ingredient>,
                                        cart: seq<Mark>, user: UserId, name: string, unit: string)
    ensures SumFor(CartItems(amounts, ingredients, cart, user), name, unit)
         == GroupSum(amounts, ingredients, cart, user, name, unit)
  {
    if amounts != [] {
      var a := amounts[0];
      var rest := CartItems(amounts[1..], ingredients, cart, user);
      var head := if Mark(user, a.recipe) in cart && a.ingredient in ingredients
        then [Item(ingredients[a.ingredient].name, ingredients[a.ingredient].unit, a.amount)]
        else [];
      assert CartItems(amounts, ingredients, cart, user) == head + rest;
      SumForConcat(head, rest, name, unit);
      if head != [] {
        assert head[..0] == [];
      }
      CartItemsSum(amounts[1..], ingredients, cart, user, name, unit);
    }
  }

  /** The rows the export produces for `user`. */
  function ShoppingLines(db: Db, user: UserId): seq<Line> {
    Aggregate(CartItems(db.amounts, db.ingredients, db.cart, user))
  }

  /** An ingredient of an amount row of a recipe in `user`'s cart has this name and unit. */
  predicate InCart(db: Db, user: UserId, name: string, unit: string) {
    exists a :: a in db.amounts && Mark(user, a.recipe) in db.cart && a.ingredient in db.ingredients
      && db.ingredients[a.ingredient] == Ingredient(name, unit)
  }

  /**
   * The shopping list holds exactly one row per (ingredient name, unit) occurring in the
   * user's cart, each row carries the sum of that group's amounts, and rows are ordered by name.
   */
  lemma ShoppingListSpec(db: Db, user: UserId)
    ensures var lines := ShoppingLines(db, user);
      && Sorted(lines)
      && KeysDistinct(lines)
      && (forall n, u :: Covers(lines, n, u) <==> InCart(db, user, n, u))
      && (forall l :: l in lines ==>
            l.total == SumFor(CartItems(db.amounts, db.ingredients, db.cart, user), l.name, l.unit))
      && (forall l :: l in lines ==>
            l.total == GroupSum(db.amounts, db.ingredients, db.cart, user, l.name, l.unit))
  {
    var items := CartItems(db.amounts, db.ingredients, db.cart, user);
    var lines := Aggregate(items);
    AggregateOrdered(items);
    forall l | l in lines
      ensures l.total == SumFor(items, l.name, l.unit)
      ensures l.total == GroupSum(db.amounts, db.ingredients, db.cart, user, l.name, l.unit)
    {
      TotalOfDistinct(lines, l);
      CartItemsSum(db.amounts, db.ingredients, db.cart, user, l.name, l.unit);
    }
    forall n, u ensures Occurs(items, n, u) <==> InCart(db, user, n, u) {
      if InCart(db, user, n, u) {
        var a :| a in db.amounts && Mark(user, a.recipe) in db.cart && a.ingredient in db.ingredients
          && db.ingredients[a.ingredient] == Ingredient(n, u);
        assert Item(n, u, a.amount) in items;
      }
    }
  }

  // ---------------------------------------------------------------------------------------------
  // Rendering: Python's str() of the numbers and the two joins

  function Digit(d: nat): (c: char)
    requires d < 10
    ensures '0' <= c <= '9' && c as int - '0' as int == d
  {
    ('0' as int + d) as char
  }

  /** `str(n)` for a non-negative integer: decimal digits without leading zeros. */
  function NatToString(n: nat): (r: string)
    ensures |r| >= 1
    ensures forall i :: 0 <= i < |r| ==> '0' <= r[i] <= '9'
    ensures r[0] == '0' ==> n == 0 && |r| == 1
    decreases n
  {
    if n < 10 then [Digit(n)] else NatToString(n / 10) + [Digit(n % 10)]
  }

  /** `str(i)` for any integer. */
  function IntToString(i: int): (r: string)
    ensures |r| >= 1
    ensures forall k :: 0 <= k < |r| ==> r[k] == '-' || '0' <= r[k] <= '9'
    ensures r[|r| - 1] != '-'
  {
    if i < 0 then "-" + NatToString(-i) else NatToString(i)
  }

  /** `sep.join(parts)`. */
  function Join(parts: seq<string>, sep: char): string {
    if parts == [] then []
    else if |parts| == 1 then parts[0]
    else parts[0] + [sep] + Join(parts[1..], sep)
  }

  /** One row: name, unit and amount joined by tabs. */
  function LineText(l: Line): string {
    Join([l.name, l.unit, IntToString(l.total)], '\t')
  }

  function Texts(lines: seq<Line>): (r: seq<string>)
    ensures |r| == |lines|
    ensures forall i :: 0 <= i < |lines| ==> r[i] == LineText(lines[i])
  {
    if lines == [] then [] else [LineText(lines[0])] + Texts(lines[1..])
  }

  /** The file body: the rows joined by newlines, with no newline after the last. */
  function Render(lines: seq<Line>): string {
    Join(Texts(lines), '\n')
  }

  // ---------------------------------------------------------------------------------------------
  // Reading a rendered list back: the partner of Render

  /** `s.split(c)`. */
  function SplitOn(s: string, c: char): (r: seq<string>)
    ensures |r| >= 1
    decreases |s|
  {
    if s == [] then [[]]
    else if s[0] == c then [[]] + SplitOn(s[1..], c)
    else
      var rest := SplitOn(s[1..], c);
      [[s[0]] + rest[0]] + rest[1..]
  }

  /** `int(s)` for texts of digits with an optional leading minus sign. */
  function ParseNat(s: string): Option<nat>
    decreases |s|
  {
    if s == [] || !('0' <= s[|s| - 1] <= '9') then None
    else
      var d := s[|s| - 1] as int - '0' as int;
      if |s| == 1 then Some(d)
      else match ParseNat(s[..|s| - 1])
        case None => None
        case Some(v) => Some(v * 10 + d)
  }

  function ParseInt(s: string): Option<int> {
    if |s| > 0 && s[0] == '-' then
      match ParseNat(s[1..])
      case None => None
      case Some(v) => Some(-(v as int))
    else
      match ParseNat(s)
      case None => None
      case Some(v) => Some(v)
  }

  function ParseLine(t: string): Option<Line> {
    var fields := SplitOn(t, '\t');
    if |fields| != 3 then None
    else match ParseInt(fields[2])
      case None => None
      case Some(v) => Some(Line(fields[0], fields[1], v))
  }

  function ParseLines(rows: seq<string>): Option<seq<Line>> {
    if rows == [] then Some([])
    else match (ParseLine(rows[0]), ParseLines(rows[1..]))
      case (Some(l), Some(ls)) => Some([l] + ls)
      case _ => None
  }

  /** Reads a list file: the empty file is the empty list. */
  function ParseList(text: string): Option<seq<Line>> {
    if text == [] then Some([]) else ParseLines(SplitOn(text, '\n'))
  }

  /** Names and units carry neither of the two separators. */
  predicate Plain(s: string) {
    '\t' !in s && '\n' !in s
  }

  lemma {:induction false} NatRoundTrip(n: nat)
    ensures ParseNat(NatToString(n)) == Some(n)
    decreases n
  {
    if n >= 10 {
      NatRoundTrip(n / 10);
      var s := NatToString(n);
      assert s[..|s| - 1] == NatToString(n / 10);
    }
  }

  lemma IntRoundTrip(i: int)
    ensures ParseInt(IntToString(i)) == Some(i)
  {
    if i < 0 {
      NegativeRoundTrip(-i);
    } else {
      NonNegativeRoundTrip(i);
    }
  }

  lemma NegativeRoundTrip(n: nat)
    ensures ParseInt("-" + NatToString(n)) == Some(-(n as int))
  {
    var digits := NatToString(n);
    var s := "-" + digits;
    NatRoundTrip(n);
    assert s[1..] == digits;
    assert |s| > 0 && s[0] == '-';
  }

  lemma NonNegativeRoundTrip(n: nat)
    ensures ParseInt(NatToString(n)) == Some(n)
  {
    var digits := NatToString(n);
    NatRoundTrip(n);
    assert '0' <= digits[0] <= '9';
  }

  lemma {:induction false} SplitWithout(p: string, c: char)
    requires c !in p
    ensures SplitOn(p, c) == [p]
    decreases |p|
  {
    if p != [] {
      SplitWithout(p[1..], c);
      assert [p[0]] + p[1..] == p;
    }
  }

  lemma {:induction false} SplitAfter(p: string, c: char, rest: string)
    requires c !in p
    ensures SplitOn(p + [c] + rest, c) == [p] + SplitOn(rest, c)
    decreases |p|
  {
    var s := p + [c] + rest;
    if p == [] {
      assert s == [c] + rest;
      assert s[1..] == rest;
    } else {
      assert s[1..] == p[1..] + [c] + rest;
      SplitAfter(p[1..], c, rest);
      assert [p[0]] + p[1..] == p;
    }
  }

  /** Splitting on the separator undoes joining parts that do not contain it. */
  lemma {:induction false} SplitJoin(parts: seq<string>, c: char)
    requires |parts| >= 1
    requires forall p :: p in parts ==> c !in p
    ensures SplitOn(Join(parts, c), c) == parts
  {
    if |parts| == 1 {
      SplitWithout(parts[0], c);
    } else {
      SplitJoin(parts[1..], c);
      SplitAfter(parts[0], c, Join(parts[1..], c));
      assert parts == [parts[0]] + parts[1..];
    }
  }

  lemma {:induction false} JoinAvoids(parts: seq<string>, sep: char, c: char)
    requires c != sep
    requires forall p :: p in parts ==> c !in p
    ensures c !in Join(parts, sep)
  {
    if |parts| > 1 {
      JoinAvoids(parts[1..], sep, c);
    }
  }

  lemma LineRoundTrip(l: Line)
    requires Plain(l.name) && Plain(l.unit)
    ensures ParseLine(LineText(l)) == Some(l)
    ensures '\n' !in LineText(l)
  {
    var fields := [l.name, l.unit, IntToString(l.total)];
    SplitJoin(fields, '\t');
    JoinAvoids(fields, '\t', '\n');
    IntRoundTrip(l.total);
  }

  lemma {:induction false} LinesRoundTrip(lines: seq<Line>)
    requires forall l :: l in lines ==> Plain(l.name) && Plain(l.unit)
    ensures ParseLines(Texts(lines)) == Some(lines)
  {
    if lines != [] {
      LineRoundTrip(lines[0]);
      LinesRoundTrip(lines[1..]);
      assert Texts(lines)[0] == LineText(lines[0]);
      assert Texts(lines)[1..] == Texts(lines[1..]);
      assert lines == [lines[0]] + lines[1..];
    }
  }

  /**
   * Reading the rendered file gives back exactly the rows, in order, when no name or unit holds a
   * tab or a newline; the empty list renders as the empty file.
   */
  lemma RenderRoundTrip(lines: seq<Line>)
    requires forall l :: l in lines ==> Plain(l.name) && Plain(l.unit)
    ensures ParseList(Render(lines)) == Some(lines)
    ensures Render(lines) == [] <==> lines == []
  {
    var texts := Texts(lines);
    forall t | t in texts ensures '\n' !in t {
      var k :| 0 <= k < |texts| && texts[k] == t;
      LineRoundTrip(lines[k]);
    }
    if lines != [] {
      SplitJoin(texts, '\n');
      LinesRoundTrip(lines);
      assert '\t' in Render(lines) by {
        LineRoundTrip(lines[0]);
        JoinEnds(texts, '\n');
        assert LineText(lines[0]) == lines[0].name + ['\t'] + Join([lines[0].unit, IntToString(lines[0].total)], '\t');
        assert '\t' in LineText(lines[0]);
      }
    }
  }

  lemma {:induction false} JoinEnds(parts: seq<string>, sep: char)
    requires |parts| >= 1
    ensures parts[0] <= Join(parts, sep)
  {
  }

  /** A non-empty list ends with the last digit of its last amount: no trailing newline. */
  lemma RenderEndsWithDigit(lines: seq<Line>)
    requires lines != []
    ensures var t := Render(lines); |t| > 0 && '0' <= t[|t| - 1] <= '9'
  {
    var last := lines[|lines| - 1];
    JoinLast(Texts(lines), '\n');
    JoinLast([last.name, last.unit, IntToString(last.total)], '\t');
  }

  /** A join ends with its last part. */
  lemma {:induction false} JoinLast(parts: seq<string>, sep: char)
    requires |parts| >= 1
    ensures var j := Join(parts, sep); var p := parts[|parts| - 1]; |p| <= |j| && j[|j| - |p|..] == p
  {
    if |parts| > 1 {
      JoinLast(parts[1..], sep);
    }
  }

  /** Two recipes using flour and one using salt give two rows, flour first. */
  lemma AggregateExample()
    ensures Aggregate([Item("flour", "g", 100), Item("salt", "g", 5), Item("flour", "g", 200)])
      == [Line("flour", "g", 300), Line("salt", "g", 5)]
  {
    var items := [Item("flour", "g", 100), Item("salt", "g", 5), Item("flour", "g", 200)];
    assert items[..2][..1][..0] == [];
    assert Aggregate(items[..2][..1]) == [Line("flour", "g", 100)];
    assert !Before("salt", "flour");
    assert AddItem([], items[1]) == [Line("salt", "g", 5)];
    assert Aggregate(items[..2]) == [Line("flour", "g", 100), Line("salt", "g", 5)];
  }

  /** Those two rows render as this file. */
  lemma RenderExample()
    ensures Render([Line("flour", "g", 300), Line("salt", "g", 5)]) == "flour\tg\t300\nsalt\tg\t5"
  {
    var flour := Line("flour", "g", 300);
    var salt := Line("salt", "g", 5);
    FlourLineExample();
    SaltLineExample();
    assert Texts([flour, salt]) == ["flour\tg\t300", "salt\tg\t5"];
    assert Join(["salt\tg\t5"], '\n') == "salt\tg\t5";
  }

  lemma FlourLineExample()
    ensures LineText(Line("flour", "g", 300)) == "flour\tg\t300"
  {
    ThreeHundredText();
    assert Join(["300"], '\t') == "300";
    assert Join(["g", "300"], '\t') == "g\t300";
  }

  lemma ThreeHundredText()
    ensures IntToString(300) == "300"
  {
    assert NatToString(3) == "3";
    assert NatToString(30) == "30";
  }

  lemma SaltLineExample()
    ensures LineText(Line("salt", "g", 5)) == "salt\tg\t5"
  {
    assert IntToString(5) == "5";
    assert Join(["5"], '\t') == "5";
    assert Join(["g", "5"], '\t') == "g\t5";
  }
}
