/** What the submit handler shows for the fetched payload: for every
    parameter, in payload order, a metric card with the first reading and
    a line chart of the whole series, both titled with the parameter's
    catalogue label. Rendering itself is not modelled, only the data each
    card and chart is given. */
module Display {
  import opened Weather

  /** One card-and-chart pair. */
  datatype Card = Card(title: string, metric: real, chart: seq<real>)

  /** `parameter_names.get(code, code)`: the catalogue label, or the raw
      code for a parameter the catalogue does not know. */
  function Label(code: string): (r: string)
    ensures code in RequestedParameters ==> r == Catalog[code] && r != code
    ensures code !in Catalog ==> r == code
  {
    if code in Catalog then Catalog[code] else code
  }

  /** The card of a parameter with at least one reading. */
  function CardOf(e: Entry): Card
    requires |e.readings| > 0
  {
    Card(Label(e.code), e.readings[0], e.readings)
  }

  /** The cards of `entries`, in order; a parameter with an empty series
      gets none. Defined from the back, the way the loop builds them. */
  function Cards(entries: seq<Entry>): (r: seq<Card>)
    ensures |r| <= |entries|
    ensures forall k :: 0 <= k < |r| ==> |r[k].chart| > 0 && r[k].metric == r[k].chart[0]
    decreases |entries|
  {
    if |entries| == 0 then []
    else
      var last := entries[|entries| - 1];
      Cards(entries[..|entries| - 1]) + (if |last.readings| > 0 then [CardOf(last)] else [])
  }

  /** The display loop of the submit handler: it walks the payload in
      order and emits a card for every parameter whose series is non-empty. */
  method ProjectDisplay(p: Payload) returns (cards: seq<Card>)
    ensures cards == Cards(p)
  {
    cards := [];
    var i := 0;
    while i < |p|
      invariant 0 <= i <= |p|
      invariant cards == Cards(p[..i])
    {
      var parameter, values := p[i].code, p[i].readings;
      if |values| > 0 {
        cards := cards + [Card(Label(parameter), values[0], values)];
      }
      assert p[..i + 1][..i] == p[..i];
      i := i + 1;
    }
    assert p[..|p|] == p;
  }

  /** Cards of a concatenation are the concatenation of the cards: the
      projection keeps payload order and treats every parameter on its own. */
  lemma {:induction false} CardsOfConcatenation(a: seq<Entry>, b: seq<Entry>)
    ensures Cards(a + b) == Cards(a) + Cards(b)
    decreases |b|
  {
    if |b| == 0 {
      assert a + b == a;
    } else {
      var b' := b[..|b| - 1];
      assert (a + b)[..|a + b| - 1] == a + b';
      assert (a + b)[|a + b| - 1] == b[|b| - 1];
      CardsOfConcatenation(a, b');
    }
  }

  /** Where the card of entry `j` lands: right after the cards of the
      entries before it. A parameter with an empty series adds no card; any
      other adds exactly one, carrying its label (catalogue name, or the raw
      code when unknown), its first reading and its whole series. */
  lemma CardPosition(p: seq<Entry>, j: nat)
    requires j < |p|
    ensures |Cards(p[..j + 1])| == |Cards(p[..j])| + (if |p[j].readings| > 0 then 1 else 0)
    ensures |p[j].readings| > 0 ==>
              && |Cards(p[..j])| < |Cards(p)|
              && Cards(p)[|Cards(p[..j])|].title == Label(p[j].code)
              && Cards(p)[|Cards(p[..j])|].metric == p[j].readings[0]
              && Cards(p)[|Cards(p[..j])|].chart == p[j].readings
  {
    assert p[..j + 1][..j] == p[..j];
    assert p == p[..j + 1] + p[j + 1..];
    CardsOfConcatenation(p[..j + 1], p[j + 1..]);
  }

  /** Cards appear in payload order: a later parameter's card never comes
      before an earlier one's. */
  lemma {:induction false} CardsMonotone(p: seq<Entry>, i: nat, j: nat)
    requires i <= j <= |p|
    ensures |Cards(p[..i])| <= |Cards(p[..j])|
    decreases j - i
  {
    if i < j {
      CardsMonotone(p, i, j - 1);
      CardPosition(p, j - 1);
    }
  }

  /** Cards keep payload order: of two parameters with readings, the
      earlier one's card comes first. */
  lemma CardsInPayloadOrder(p: seq<Entry>, i: nat, j: nat)
    requires i < j < |p|
    requires |p[i].readings| > 0
    ensures |Cards(p[..i])| < |Cards(p[..j])|
  {
    CardPosition(p, i);
    CardsMonotone(p, i + 1, j);
  }

  /** Every card belongs to a parameter of the payload with a non-empty
      series, at the position that parameter's order gives it. */
  lemma {:induction false} EveryCardFromAParameter(p: seq<Entry>, k: nat)
    requires k < |Cards(p)|
    ensures exists j :: 0 <= j < |p| && |p[j].readings| > 0 && k == |Cards(p[..j])|
                        && Cards(p)[k] == CardOf(p[j])
    decreases |p|
  {
    var n := |p| - 1;
    assert p[..n + 1] == p;
    CardPosition(p, n);
    if k < |Cards(p[..n])| {
      EveryCardFromAParameter(p[..n], k);
      var j :| 0 <= j < n && |p[..n][j].readings| > 0 && k == |Cards(p[..n][..j])|
               && Cards(p[..n])[k] == CardOf(p[..n][j]);
      assert p[..n][..j] == p[..j];
      assert Cards(p) == Cards(p[..n]) + (if |p[n].readings| > 0 then [CardOf(p[n])] else []);
    } else {
      assert |p[n].readings| > 0 && k == |Cards(p[..n])|;
    }
  }

  /** The provider's missing-value marker is not filtered: a series of
      nothing but -999.0 still gets a card showing -999.0 and a chart of
      every marker. */
  lemma MissingValuesAreDisplayed(code: string, days: nat)
    requires days > 0
    ensures Cards([Entry(code, seq(days, _ => Sentinel))])
            == [Card(Label(code), Sentinel, seq(days, _ => Sentinel))]
  {
  }
}
