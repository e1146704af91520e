/** `displayCryptos`: what the card grid shows for a list of records. The
    markup itself is not modelled; a card is the tuple of values the template
    interpolates, each already passed through its formatting helper. */
module Render {
  import opened Assets
  import opened Format

  /** `market_cap_rank || 'N/A'`: a rank that is absent (or 0) shows as N/A. */
  datatype RankLabel = Ranked(rank: int) | RankNotAvailable

  function RankLabelOf(rank: Option<int>): (r: RankLabel)
    ensures r == RankNotAvailable <==> rank.None? || rank.value == 0
    ensures r.Ranked? ==> r.rank == rank.value
  {
    match rank
    case Some(n) => if n != 0 then Ranked(n) else RankNotAvailable
    case None => RankNotAvailable
  }

  /** One of the three percentage-change cells: its colour class and its text. */
  datatype ChangeCell = ChangeCell(cls: ChangeClass, text: Percentage)

  /** A change cell: the value is first defaulted with `|| 0`, then classified
      and formatted. The text is therefore never `N/A`; an absent change is
      shown as `+0.00%` and drawn neutral; a present one shows its own value
      and is classed by its sign. */
  function ChangeCellOf(change: Option<real>): (cell: ChangeCell)
    ensures cell.text.Signed?
    ensures change.None? ==> cell == ChangeCell(Neutral, Signed(true, 0.0))
    ensures change.Some? ==>
      cell.text.value == change.value && (cell.text.plus <==> change.value >= 0.0) &&
      cell.cls == GetChangeClass(change.value)
    ensures cell.cls == Neutral <==> change.None? || change.value == 0.0
  {
    var v := OrZero(change);
    ChangeCell(GetChangeClass(v), FormatPercentage(Some(v)))
  }

  /** One card. The volume cell is always drawn with the neutral class, so it
      carries no class of its own here. */
  datatype Card = Card(
    name: string,
    symbol: string,
    image: string,
    rank: RankLabel,
    price: Price,
    marketCap: LargeNumber,
    change1h: ChangeCell,
    change24h: ChangeCell,
    change7d: ChangeCell,
    volume: LargeNumber)

  /** The body of the `map` callback: one record to one card. Every cell
      comes from the record's own field through its helper (the 1h, 24h and
      7d cells from the 1h, 24h and 7d changes, in that order), and the rank
      is N/A, and no change cell is, as the helpers' contracts say. */
  function CardOf(a: Asset): (c: Card)
    ensures c.name == a.name && c.symbol == a.symbol && c.image == a.image
    ensures c.rank == RankLabelOf(a.marketCapRank) && c.price == FormatPrice(a.currentPrice)
    ensures c.marketCap == FormatLargeNumber(a.marketCap) && c.volume == FormatLargeNumber(a.totalVolume)
    ensures c.change1h == ChangeCellOf(a.change1h) && c.change24h == ChangeCellOf(a.change24h) &&
      c.change7d == ChangeCellOf(a.change7d)
    ensures c.rank == RankNotAvailable <==> a.marketCapRank.None? || a.marketCapRank.value == 0
    ensures c.change1h.text.Signed? && c.change24h.text.Signed? && c.change7d.text.Signed?
    ensures c.marketCap.suffix == LargeNumberBand(a.marketCap) && c.volume.suffix == LargeNumberBand(a.totalVolume)
  {
    Card(a.name, a.symbol, a.image, RankLabelOf(a.marketCapRank),
         FormatPrice(a.currentPrice), FormatLargeNumber(a.marketCap),
         ChangeCellOf(a.change1h), ChangeCellOf(a.change24h), ChangeCellOf(a.change7d),
         FormatLargeNumber(a.totalVolume))
  }

  /** `cryptos.map(...).join('')`: the cards, in the order of the records. */
  function Cards(cryptos: seq<Asset>): (cs: seq<Card>)
    ensures |cs| == |cryptos|
  {
    if cryptos == [] then [] else [CardOf(cryptos[0])] + Cards(cryptos[1..])
  }

  /** The content of the card grid. `Blank` is the grid before anything has
      been displayed. */
  datatype Grid = Blank | Placeholder | Shown(cards: seq<Card>)

  /** `displayCryptos`: the "no cryptocurrencies found" placeholder for an
      empty list, otherwise the cards. */
  function DisplayCryptos(cryptos: seq<Asset>): (g: Grid)
    ensures g.Placeholder? <==> cryptos == []
    ensures g.Shown? <==> cryptos != []
    ensures g.Shown? ==> |g.cards| == |cryptos|
  {
    if |cryptos| == 0 then Placeholder else Shown(Cards(cryptos))
  }

  /** Card `i` is the card of record `i`: same name and symbol, same position. */
  lemma {:induction false} CardsAt(cryptos: seq<Asset>, i: nat)
    requires i < |cryptos|
    ensures Cards(cryptos)[i] == CardOf(cryptos[i])
    ensures Cards(cryptos)[i].name == cryptos[i].name && Cards(cryptos)[i].symbol == cryptos[i].symbol
  {
    if i > 0 {
      CardsAt(cryptos[1..], i - 1);
    }
  }

  /** Rendering a concatenation is the concatenation of the renderings: each
      record contributes its own card and nothing else. */
  lemma {:induction false} CardsAppend(a: seq<Asset>, b: seq<Asset>)
    ensures Cards(a + b) == Cards(a) + Cards(b)
  {
    if a != [] {
      assert (a + b)[1..] == a[1..] + b;
      CardsAppend(a[1..], b);
    } else {
      assert a + b == b;
    }
  }

  /** A non-empty list is shown as exactly one card per record, in order. */
  lemma DisplayOneCardPerRecord(cryptos: seq<Asset>)
    requires cryptos != []
    ensures DisplayCryptos(cryptos).Shown?
    ensures |DisplayCryptos(cryptos).cards| == |cryptos|
    ensures forall i :: 0 <= i < |cryptos| ==> DisplayCryptos(cryptos).cards[i] == CardOf(cryptos[i])
  {
    forall i | 0 <= i < |cryptos|
      ensures DisplayCryptos(cryptos).cards[i] == CardOf(cryptos[i])
    {
      CardsAt(cryptos, i);
    }
  }

  /** Because of `|| 0`, no change cell of any displayed card ever reaches the
      `N/A` branch of `formatPercentage`. */
  lemma {:induction false} DisplayNeverShowsChangeNotAvailable(cryptos: seq<Asset>)
    ensures DisplayCryptos(cryptos).Shown? ==>
      forall c :: c in DisplayCryptos(cryptos).cards ==>
        c.change1h.text.Signed? && c.change24h.text.Signed? && c.change7d.text.Signed?
  {
    if cryptos != [] {
      var cs := DisplayCryptos(cryptos).cards;
      forall c | c in cs
        ensures c.change1h.text.Signed? && c.change24h.text.Signed? && c.change7d.text.Signed?
      {
        var i :| 0 <= i < |cs| && cs[i] == c;
        CardsAt(cryptos, i);
      }
    }
  }

  /** A drawn card shows an absent 1h, 24h or 7d change of its own record as
      `+0.00%` in the neutral class, and a present one as that record's value,
      with a `+` exactly when it is not negative and the class of its sign. */
  lemma DisplayChangeCells(cryptos: seq<Asset>, i: nat)
    requires i < |cryptos|
    ensures DisplayCryptos(cryptos).Shown?
    ensures var c := DisplayCryptos(cryptos).cards[i];
      (cryptos[i].change1h.None? ==> c.change1h == ChangeCell(Neutral, Signed(true, 0.0))) &&
      (cryptos[i].change24h.None? ==> c.change24h == ChangeCell(Neutral, Signed(true, 0.0))) &&
      (cryptos[i].change7d.None? ==> c.change7d == ChangeCell(Neutral, Signed(true, 0.0))) &&
      (cryptos[i].change1h.Some? ==>
         var v := cryptos[i].change1h.value; c.change1h == ChangeCell(GetChangeClass(v), Signed(v >= 0.0, v))) &&
      (cryptos[i].change24h.Some? ==>
         var v := cryptos[i].change24h.value; c.change24h == ChangeCell(GetChangeClass(v), Signed(v >= 0.0, v))) &&
      (cryptos[i].change7d.Some? ==>
         var v := cryptos[i].change7d.value; c.change7d == ChangeCell(GetChangeClass(v), Signed(v >= 0.0, v)))
  {
    CardsAt(cryptos, i);
  }
}
