/**
 * get_prices and get_book_tickers: the decoded listing is walked record by
 * record and each record is filed in a dict under its symbol, so a later
 * record with the same symbol overwrites an earlier one in place. Prices
 * and quantities are passed through as the JSON values they are.
 */
module Tickers {

  import opened Results
  import opened Dicts
  import opened Http

  /** The four fields get_book_tickers copies from a record. */
  datatype BookTicker = BookTicker(bidPrice: Json, bidQty: Json, askPrice: Json, askQty: Json)

  /** One filing step: the symbol and the value filed under it, or the
      exception the step raises. */
  type Step<T> = Json -> Result<(string, T), Error>

  /** `coin["symbol"]` as a dict key. The venue sends symbols as text; any
      other symbol is treated as an error here. */
  function SymbolOf(coin: Json): (r: Result<string, Error>)
    ensures r.Ok? ==> Subscript(coin, "symbol") == Ok(JStr(r.value))
  {
    match Subscript(coin, "symbol")
    case Err(e) => Err(e)
    case Ok(JStr(s)) => Ok(s)
    case Ok(_) => Err(TypeError("symbol is not a string"))
  }

  /** `prices[coin["symbol"]] = coin["price"]`: Python evaluates the
      right-hand side first, so a missing price is reported before a
      missing symbol. */
  function PriceItem(coin: Json): (r: Result<(string, Json), Error>)
    ensures r.Ok? <==> Subscript(coin, "price").Ok? && SymbolOf(coin).Ok?
    ensures r.Ok? ==> r.value == (SymbolOf(coin).value, Subscript(coin, "price").value)
    ensures Subscript(coin, "price").Err? ==> r == Err(Subscript(coin, "price").error)
  {
    match Subscript(coin, "price")
    case Err(e) => Err(e)
    case Ok(price) =>
      match SymbolOf(coin)
      case Err(e) => Err(e)
      case Ok(sym) => Ok((sym, price))
  }

  /** `book_tickers[coin["symbol"]] = {...}`: the four fields are read in
      the order bidPrice, bidQty, askPrice, askQty, then the symbol. */
  function BookItem(coin: Json): (r: Result<(string, BookTicker), Error>)
    ensures r.Ok? <==> && Subscript(coin, "bidPrice").Ok? && Subscript(coin, "bidQty").Ok?
                       && Subscript(coin, "askPrice").Ok? && Subscript(coin, "askQty").Ok?
                       && SymbolOf(coin).Ok?
    ensures r.Ok? ==> r.value.1 == BookTicker(Subscript(coin, "bidPrice").value, Subscript(coin, "bidQty").value,
                                              Subscript(coin, "askPrice").value, Subscript(coin, "askQty").value)
    ensures r.Ok? ==> r.value.0 == SymbolOf(coin).value
  {
    match Subscript(coin, "bidPrice")
    case Err(e) => Err(e)
    case Ok(bidPrice) =>
      match Subscript(coin, "bidQty")
      case Err(e) => Err(e)
      case Ok(bidQty) =>
        match Subscript(coin, "askPrice")
        case Err(e) => Err(e)
        case Ok(askPrice) =>
          match Subscript(coin, "askQty")
          case Err(e) => Err(e)
          case Ok(askQty) =>
            match SymbolOf(coin)
            case Err(e) => Err(e)
            case Ok(sym) => Ok((sym, BookTicker(bidPrice, bidQty, askPrice, askQty)))
  }

  /** The dict built by filing `coins` in order, or the first exception. */
  function FileBySymbol<T>(coins: seq<Json>, step: Step<T>): Result<seq<(string, T)>, Error>
  {
    if coins == [] then Ok([])
    else
      match FileBySymbol(coins[..|coins| - 1], step)
      case Err(e) => Err(e)
      case Ok(acc) =>
        match step(coins[|coins| - 1])
        case Err(e) => Err(e)
        case Ok(item) => Ok(Put(acc, item.0, item.1))
  }

  /** Iterating the decoded listing and filing what it yields. */
  function Filed<T>(listing: Json, step: Step<T>): Result<seq<(string, T)>, Error>
  {
    match Iterate(listing)
    case Err(e) => Err(e)
    case Ok(coins) => FileBySymbol(coins, step)
  }

  /** The fold succeeds exactly when every record can be filed. */
  lemma {:induction false} FiledOk<T>(coins: seq<Json>, step: Step<T>)
    ensures FileBySymbol(coins, step).Ok? <==> forall i :: 0 <= i < |coins| ==> step(coins[i]).Ok?
  {
    if coins != [] {
      var init, last := coins[..|coins| - 1], coins[|coins| - 1];
      FiledOk(init, step);
      assert forall i :: 0 <= i < |init| ==> init[i] == coins[i];
      assert FileBySymbol(coins, step).Ok? <==> FileBySymbol(init, step).Ok? && step(last).Ok?;
      if forall i :: 0 <= i < |coins| ==> step(coins[i]).Ok? {
        assert forall i :: 0 <= i < |init| ==> step(init[i]).Ok?;
        assert step(coins[|coins| - 1]).Ok?;
      }
      if FileBySymbol(coins, step).Ok? {
        forall i | 0 <= i < |coins| ensures step(coins[i]).Ok? {
          if i < |init| { assert step(init[i]).Ok?; } else { assert coins[i] == last; }
        }
      }
    }
  }

  /** When the fold fails, it raises the exception of the first record that
      cannot be filed. */
  lemma {:induction false} FiledFirstError<T>(coins: seq<Json>, step: Step<T>) returns (i: nat)
    requires FileBySymbol(coins, step).Err?
    ensures i < |coins| && step(coins[i]) == Err(FileBySymbol(coins, step).error)
    ensures forall j :: 0 <= j < i ==> step(coins[j]).Ok?
  {
    var init := coins[..|coins| - 1];
    assert forall j :: 0 <= j < |init| ==> init[j] == coins[j];
    if FileBySymbol(init, step).Err? {
      i := FiledFirstError(init, step);
    } else {
      FiledOk(init, step);
      i := |coins| - 1;
    }
  }

  /** Once a prefix fails, the whole listing fails with the same exception. */
  lemma {:induction false} FiledErrPersists<T>(coins: seq<Json>, n: nat, step: Step<T>)
    requires n <= |coins| && FileBySymbol(coins[..n], step).Err?
    ensures FileBySymbol(coins, step) == FileBySymbol(coins[..n], step)
    decreases |coins| - n
  {
    if n < |coins| {
      assert coins[..n + 1][..n] == coins[..n];
      FiledErrPersists(coins, n + 1, step);
    } else {
      assert coins[..n] == coins;
    }
  }

  /** Some record of `coins` is filed under `s`. */
  ghost predicate HasSymbol<T>(coins: seq<Json>, step: Step<T>, s: string)
    requires forall i :: 0 <= i < |coins| ==> step(coins[i]).Ok?
  {
    exists i :: 0 <= i < |coins| && step(coins[i]).value.0 == s
  }

  lemma HasSymbolLast<T>(coins: seq<Json>, step: Step<T>, s: string)
    requires coins != [] && forall i :: 0 <= i < |coins| ==> step(coins[i]).Ok?
    ensures var init := coins[..|coins| - 1];
      HasSymbol(coins, step, s) <==> HasSymbol(init, step, s) || step(coins[|coins| - 1]).value.0 == s
  {
    var init := coins[..|coins| - 1];
    if HasSymbol(coins, step, s) {
      var i :| 0 <= i < |coins| && step(coins[i]).value.0 == s;
      if i < |init| { assert init[i] == coins[i]; }
    }
    if HasSymbol(init, step, s) {
      var i :| 0 <= i < |init| && step(init[i]).value.0 == s;
      assert init[i] == coins[i];
    }
  }

  /** What get_prices and get_book_tickers promise of their result, first
      part: it is a dict whose keys are exactly the symbols of the records. */
  lemma {:induction false} FiledKeys<T>(coins: seq<Json>, step: Step<T>)
    requires forall i :: 0 <= i < |coins| ==> step(coins[i]).Ok?
    ensures FileBySymbol(coins, step).Ok?
    ensures DistinctKeys(FileBySymbol(coins, step).value)
    ensures forall s :: s in Keys(FileBySymbol(coins, step).value) <==> HasSymbol(coins, step, s)
  {
    if coins != [] {
      var init, last := coins[..|coins| - 1], coins[|coins| - 1];
      assert forall i :: 0 <= i < |init| ==> init[i] == coins[i];
      FiledKeys(init, step);
      var acc := FileBySymbol(init, step).value;
      var item := step(last).value;
      var m := Put(acc, item.0, item.1);
      assert FileBySymbol(coins, step) == Ok(m);
      PutKeepsDistinct(acc, item.0, item.1);
      PutSpec(acc, item.0, item.1);
      forall s ensures s in Keys(m) <==> HasSymbol(coins, step, s) {
        HasSymbolLast(coins, step, s);
      }
    }
  }

  /** Second part: a symbol maps to the value of the last record carrying it. */
  lemma {:induction false} FiledLastWins<T>(coins: seq<Json>, step: Step<T>, i: nat)
    requires forall j :: 0 <= j < |coins| ==> step(coins[j]).Ok?
    requires i < |coins|
    requires forall j :: i < j < |coins| ==> step(coins[j]).value.0 != step(coins[i]).value.0
    ensures FileBySymbol(coins, step).Ok?
    ensures Lookup(FileBySymbol(coins, step).value, step(coins[i]).value.0) == Some(step(coins[i]).value.1)
  {
    var init, last := coins[..|coins| - 1], coins[|coins| - 1];
    assert forall j :: 0 <= j < |init| ==> init[j] == coins[j];
    FiledOk(init, step);
    var acc := FileBySymbol(init, step).value;
    var item := step(last).value;
    assert FileBySymbol(coins, step) == Ok(Put(acc, item.0, item.1));
    PutSpec(acc, item.0, item.1);
    if i < |coins| - 1 {
      FiledLastWins(init, step, i);
      PutOthers(acc, item.0, item.1, step(coins[i]).value.0);
    }
  }

  /** The loop of get_prices (or get_book_tickers, with `step` the body for
      one record): `prices = {}` and `for coin in coins: prices[...] = ...`. */
  method Collect<T>(listing: Json, step: Step<T>) returns (r: Result<seq<(string, T)>, Error>)
    ensures r == Filed(listing, step)
  {
    var iterated := Iterate(listing);
    if iterated.Err? {
      return Err(iterated.error);
    }
    var coins := iterated.value;
    var filed: seq<(string, T)> := [];
    var i := 0;
    while i < |coins|
      invariant 0 <= i <= |coins|
      invariant FileBySymbol(coins[..i], step) == Ok(filed)
    {
      assert coins[..i + 1][..i] == coins[..i];
      var item := step(coins[i]);
      if item.Err? {
        FiledErrPersists(coins, i + 1, step);
        return Err(item.error);
      }
      filed := Put(filed, item.value.0, item.value.1);
      i := i + 1;
    }
    assert coins[..i] == coins;
    r := Ok(filed);
  }
}
