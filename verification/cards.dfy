/** The board's card records as the handler decodes them, the spreadsheet
    row each card becomes, and the two per-card transforms of the handler:
    the row projection of the upsert task and the "Done" filter of the
    archive task. */
module Cards {
  import opened Results
  import Text
  import Seqs

  /** A `time.Time`, kept abstract: nothing in the handler computes with
      instants except through the clock's operations. */
  datatype Instant = Instant(unixNanos: int)

  datatype Label = Label(id: string, name: string, color: string)

  /** The list (board column) a card sits in. */
  datatype CardList = CardList(id: string, name: string)

  /** The fields of a board card that the handler reads, plus `url`, the
      long link that the URL cell deliberately does not use. */
  datatype Card = Card(
    id: string,
    idShort: int,
    name: string,
    shortUrl: string,
    url: string,
    dateLastActivity: Instant,
    list: CardList,
    labels: seq<Label>)

  /** One spreadsheet line: the card's short id and six positional cells. */
  datatype Row = Row(id: string, data: seq<string>)

  /** The JSON library, as two opaque partial functions: decoding a payload
      into cards and serialising rows. */
  datatype Codec = Codec(
    decode: string -> Result<seq<Card>>,
    encode: seq<Row> -> Result<string>)

  /** Every JSON decoder rejects the empty text. */
  predicate RejectsEmpty(codec: Codec) {
    codec.decode("").Err?
  }

  /** The handler's clock: `now(i)` is the reading of `time.Now()` taken while
      projecting the i-th card, `dayBefore` is `AddDate(0, 0, -1)` and
      `format` is `Format("02-01-2006 15:04:05")`. */
  datatype Clock = Clock(
    now: nat -> Instant,
    dayBefore: Instant -> Instant,
    format: Instant -> string)

  /** The list name whose cards get archived. */
  const DoneList: string := "Done"

  /** The number of cells in every row. */
  const RowWidth: nat := 6

  /** `load`: decoding the fetch task's output. */
  function Load(codec: Codec, j: string): Result<seq<Card>>
  {
    codec.decode(j)
  }

  /** The names of the labels, in label order. */
  function LabelNames(labels: seq<Label>): seq<string>
  {
    Seqs.Map(labels, (l: Label) => l.name)
  }

  /** The label cell: label names joined by single spaces. */
  function LabelCell(c: Card): string
  {
    Text.Join(LabelNames(c.labels), " ")
  }

  /** The row for one card, given the clock reading taken for it. */
  function ProjectRow(c: Card, now: Instant, clock: Clock): Row
  {
    Row(Text.Decimal(c.idShort), [
      clock.format(clock.dayBefore(now)),
      clock.format(c.dateLastActivity),
      c.name,
      c.shortUrl,
      LabelCell(c),
      c.list.name])
  }

  /** What each cell of a projected row holds, and that its id reads back as
      the card's short id. */
  lemma ProjectRowCells(c: Card, now: Instant, clock: Clock)
    ensures var row := ProjectRow(c, now, clock);
      && row.id == Text.Decimal(c.idShort)
      && Text.ParseDecimal(row.id) == Some(c.idShort)
      && |row.data| == RowWidth
      && row.data[1] == clock.format(c.dateLastActivity)
      && row.data[2] == c.name
      && row.data[3] == c.shortUrl
      && row.data[4] == Text.Join(LabelNames(c.labels), " ")
      && row.data[5] == c.list.name
  {
    Text.DecimalRoundTrip(c.idShort);
  }

  /** The row loop of the upsert task, starting at clock reading `k`: one row
      per card, in card order, the i-th using reading `k + i`. */
  function ProjectRowsFrom(cards: seq<Card>, clock: Clock, k: nat): (rows: seq<Row>)
    ensures |rows| == |cards|
    ensures forall i :: 0 <= i < |cards| ==> rows[i] == ProjectRow(cards[i], clock.now(k + i), clock)
  {
    if |cards| == 0 then []
    else [ProjectRow(cards[0], clock.now(k), clock)] + ProjectRowsFrom(cards[1..], clock, k + 1)
  }

  /** The rows of the upsert task. Each row's id reads back as the card's
      short id; the name, short URL, labels and list name sit at cells 2 to 5. */
  function ProjectRows(cards: seq<Card>, clock: Clock): (rows: seq<Row>)
    ensures |rows| == |cards|
    ensures forall i :: 0 <= i < |cards| ==>
      && rows[i].id == Text.Decimal(cards[i].idShort)
      && Text.ParseDecimal(rows[i].id) == Some(cards[i].idShort)
      && |rows[i].data| == RowWidth
      && rows[i].data[1] == clock.format(cards[i].dateLastActivity)
      && rows[i].data[2] == cards[i].name
      && rows[i].data[3] == cards[i].shortUrl
      && rows[i].data[4] == Text.Join(LabelNames(cards[i].labels), " ")
      && rows[i].data[5] == cards[i].list.name
  {
    var rows := ProjectRowsFrom(cards, clock, 0);
    forall i | 0 <= i < |cards|
      ensures rows[i].id == Text.Decimal(cards[i].idShort)
      ensures Text.ParseDecimal(rows[i].id) == Some(cards[i].idShort)
      ensures |rows[i].data| == RowWidth
      ensures rows[i].data[1] == clock.format(cards[i].dateLastActivity)
      ensures rows[i].data[2] == cards[i].name
      ensures rows[i].data[3] == cards[i].shortUrl
      ensures rows[i].data[4] == Text.Join(LabelNames(cards[i].labels), " ")
      ensures rows[i].data[5] == cards[i].list.name
    {
      ProjectRowCells(cards[i], clock.now(i), clock);
    }
    rows
  }

  /** Two cards get rows with the same id only when their short ids agree. */
  lemma RowIdsDistinguishCards(cards: seq<Card>, clock: Clock, i: nat, j: nat)
    requires i < |cards| && j < |cards|
    ensures ProjectRows(cards, clock)[i].id == ProjectRows(cards, clock)[j].id
            <==> cards[i].idShort == cards[j].idShort
  {
  }

  /** The label cell is never omitted: a card without labels gets the empty
      string, and otherwise splitting the cell at spaces gives back the
      label names in order, provided no name contains a space. */
  lemma LabelCellRecoversLabels(c: Card)
    ensures |c.labels| == 0 ==> LabelCell(c) == ""
    ensures |c.labels| > 0 && (forall i :: 0 <= i < |c.labels| ==> ' ' !in c.labels[i].name)
            ==> Text.Split(LabelCell(c), ' ') == LabelNames(c.labels)
  {
    if |c.labels| > 0 && (forall i :: 0 <= i < |c.labels| ==> ' ' !in c.labels[i].name) {
      Text.SplitJoin(LabelNames(c.labels), ' ');
    }
  }

  /** The archive loop: the ids of the cards in the "Done" list, in card
      order. */
  function DoneCardIds(cards: seq<Card>): (ids: seq<string>)
    ensures |ids| <= |cards|
    ensures forall id :: id in ids <==>
      exists i :: 0 <= i < |cards| && cards[i].list.name == DoneList && cards[i].id == id
  {
    if |cards| == 0 then []
    else
      var rest := DoneCardIds(cards[1..]);
      assert forall i :: 0 < i < |cards| ==> cards[i] == cards[1..][i - 1];
      if cards[0].list.name == DoneList then [cards[0].id] + rest else rest
  }

  /** The filter works card by card: the ids of a concatenation are the ids
      of the first part followed by those of the second, so input order is
      kept. */
  lemma {:induction false} DoneCardIdsAppend(a: seq<Card>, b: seq<Card>)
    ensures DoneCardIds(a + b) == DoneCardIds(a) + DoneCardIds(b)
  {
    if |a| > 0 {
      assert (a + b)[1..] == a[1..] + b;
      DoneCardIdsAppend(a[1..], b);
    } else {
      assert a + b == b;
    }
  }

  /** A single card contributes its id exactly when it is in the "Done" list. */
  lemma DoneCardIdsSingle(c: Card)
    ensures DoneCardIds([c]) == if c.list.name == DoneList then [c.id] else []
  {
  }

  /** The comma-joined archive list gives back the ids when split at commas,
      as long as there is at least one and no id contains a comma. */
  lemma ArchiveIdsRecoverable(cards: seq<Card>)
    requires |DoneCardIds(cards)| > 0
    requires forall i :: 0 <= i < |cards| ==> ',' !in cards[i].id
    ensures Text.Split(Text.Join(DoneCardIds(cards), ","), ',') == DoneCardIds(cards)
  {
    var ids := DoneCardIds(cards);
    forall k | 0 <= k < |ids|
      ensures ',' !in ids[k]
    {
      assert ids[k] in ids;
    }
    Text.SplitJoin(ids, ',');
  }
}
