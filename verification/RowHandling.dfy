/**
 What becomes of provider rows, handled one by one in any order. Codes are integers in the order
 of their text; converting one row of a known security is a parameter.
 */
module RowHandling {
  import opened AssetTypes
  import opened Outcomes
  import Schedules = RowSchedules

  datatype Security = Security(code: int, assetType: string)

  /** `shown` is the code as an unknown row reports it. */
  datatype ProviderRow = ProviderRow(code: int, shown: int, assetType: string, content: int)

  datatype Reason = UnknownSymbol | ProviderError | InvalidIdentity | NotReturned | Earlier

  datatype Quote = Quote(code: int, content: int)

  datatype MissingItem = MissingItem(code: int, reason: Reason)

  /** Library code: the upper case of one character, and the conversion of a row. */
  datatype Convert = Convert(upper: char -> char, toQuote: (Security, ProviderRow) -> Result<int, Reason>)

  datatype Handled = Found(quote: Quote) | Refused(item: MissingItem)

  /** The last security listed under each code. */
  function ByCode(securities: seq<Security>): map<int, Security> {
    if securities == [] then map[]
    else
      var last := securities[|securities| - 1];
      ByCode(securities[..|securities| - 1])[last.code := last]
  }

  /** What becomes of one row, whenever it is handled. */
  function Handle(byCode: map<int, Security>, row: ProviderRow, convert: Convert): Handled {
    if row.code !in byCode || !AssetTypesMatch(byCode[row.code].assetType, row.assetType, convert.upper) then
      Refused(MissingItem(row.shown, UnknownSymbol))
    else
      match convert.toQuote(byCode[row.code], row)
      case Ok(content) => Found(Quote(byCode[row.code].code, content))
      case Err(reason) => Refused(MissingItem(byCode[row.code].code, reason))
  }

  function HandledRows(byCode: map<int, Security>, rows: seq<ProviderRow>, convert: Convert): (r: seq<Handled>)
    ensures |r| == |rows|
  {
    seq(|rows|, i requires 0 <= i < |rows| => Handle(byCode, rows[i], convert))
  }

  lemma {:induction false} LastSecurityCounts(securities: seq<Security>, code: int)
    ensures code in ByCode(securities) <==> exists k :: 0 <= k < |securities| && securities[k].code == code
    ensures code in ByCode(securities) ==>
              exists k :: 0 <= k < |securities| && securities[k] == ByCode(securities)[code]
                          && securities[k].code == code
                          && forall j :: k < j < |securities| ==> securities[j].code != code
  {
    if securities != [] {
      var front, last := securities[..|securities| - 1], |securities| - 1;
      LastSecurityCounts(front, code);
      if securities[last].code == code {
        assert securities[last] == ByCode(securities)[code];
      } else if code in ByCode(front) {
        var k :| 0 <= k < |front| && front[k] == ByCode(front)[code] && front[k].code == code
                 && forall j :: k < j < |front| ==> front[j].code != code;
        assert securities[k] == ByCode(securities)[code];
      }
      forall k | 0 <= k < |securities| && securities[k].code == code ensures code in ByCode(securities) {
        assert k < last ==> front[k] == securities[k];
      }
    }
  }

  function Quotes(handled: seq<Handled>): seq<Quote> {
    if handled == [] then []
    else
      var last := handled[|handled| - 1];
      Quotes(handled[..|handled| - 1]) + if last.Found? then [last.quote] else []
  }

  function Refusals(handled: seq<Handled>): seq<MissingItem> {
    if handled == [] then []
    else
      var last := handled[|handled| - 1];
      Refusals(handled[..|handled| - 1]) + if last.Refused? then [last.item] else []
  }

  lemma {:induction false} EveryRowCounted(handled: seq<Handled>)
    ensures |Quotes(handled)| + |Refusals(handled)| == |handled|
  {
    if handled != [] {
      EveryRowCounted(handled[..|handled| - 1]);
    }
  }

  // ----- results do not depend on the order -----

  function InOrder(handled: seq<Handled>, order: seq<int>): (r: seq<Handled>)
    requires forall i :: 0 <= i < |order| ==> 0 <= order[i] < |handled|
    ensures |r| == |order|
  {
    seq(|order|, i requires 0 <= i < |order| => handled[order[i]])
  }

  lemma {:induction false} Joined(a: seq<Handled>, b: seq<Handled>)
    ensures Quotes(a + b) == Quotes(a) + Quotes(b)
    ensures Refusals(a + b) == Refusals(a) + Refusals(b)
  {
    if b == [] {
      assert a + b == a;
    } else {
      Joined(a, b[..|b| - 1]);
      assert (a + b)[..|a + b| - 1] == a + b[..|b| - 1];
      assert (a + b)[|a + b| - 1] == b[|b| - 1];
    }
  }

  lemma {:induction false} OrderIrrelevant(handled: seq<Handled>, order: seq<int>)
    requires Schedules.IsPermutation(order, |handled|)
    ensures multiset(Quotes(InOrder(handled, order))) == multiset(Quotes(handled))
    ensures multiset(Refusals(InOrder(handled, order))) == multiset(Refusals(handled))
    decreases |handled|
  {
    hide Quotes, Refusals, Schedules.IsPermutation, InOrder;
    if handled == [] {
      NothingHandled(handled, order);
    } else {
      var last := |handled| - 1;
      var k := PositionOf(order, last);
      OrderIrrelevant(handled[..last], order[..k] + order[k + 1..]);
      TakeOut(handled, order, k);
      PutLast(handled);
    }
  }

  lemma NothingHandled(handled: seq<Handled>, order: seq<int>)
    requires handled == [] && Schedules.IsPermutation(order, 0)
    ensures InOrder(handled, order) == handled
  {
  }

  lemma PositionOf(order: seq<int>, last: nat) returns (k: nat)
    requires Schedules.IsPermutation(order, last + 1)
    ensures k < |order| && order[k] == last
    ensures Schedules.IsPermutation(order[..k] + order[k + 1..], last)
    ensures forall i :: 0 <= i < |order| ==> 0 <= order[i] <= last
    ensures forall i :: 0 <= i < |order| && i != k ==> order[i] < last
  {
    assert last in order;
    k :| 0 <= k < |order| && order[k] == last;
    WithoutOne(order, k, last);
  }

  lemma PutLast(handled: seq<Handled>)
    requires handled != []
    ensures Quotes(handled) == Quotes(handled[..|handled| - 1]) + Quotes([handled[|handled| - 1]])
    ensures Refusals(handled) == Refusals(handled[..|handled| - 1]) + Refusals([handled[|handled| - 1]])
  {
    assert [handled[|handled| - 1]][..0] == [];
  }

  /** Taking the last row out of the middle of the order. */
  lemma TakeOut(handled: seq<Handled>, order: seq<int>, k: nat)
    requires forall i :: 0 <= i < |order| ==> 0 <= order[i] < |handled|
    requires k < |order| && handled != [] && order[k] == |handled| - 1
    requires forall i :: 0 <= i < |order| && i != k ==> order[i] < |handled| - 1
    ensures var last, rest := handled[|handled| - 1], order[..k] + order[k + 1..];
            && (forall i :: 0 <= i < |rest| ==> 0 <= rest[i] < |handled| - 1)
            && multiset(Quotes(InOrder(handled, order)))
               == multiset(Quotes(InOrder(handled[..|handled| - 1], rest))) + multiset(Quotes([last]))
            && multiset(Refusals(InOrder(handled, order)))
               == multiset(Refusals(InOrder(handled[..|handled| - 1], rest))) + multiset(Refusals([last]))
  {
    hide Quotes, Refusals;
    var last, front, back := handled[|handled| - 1], order[..k], order[k + 1..];
    assert InOrder(handled, order) == InOrder(handled, front) + ([last] + InOrder(handled, back));
    assert InOrder(handled[..|handled| - 1], front + back) == InOrder(handled, front) + InOrder(handled, back);
    Joined(InOrder(handled, front), [last] + InOrder(handled, back));
    Joined([last], InOrder(handled, back));
    Joined(InOrder(handled, front), InOrder(handled, back));
  }

  lemma WithoutOne(order: seq<int>, k: nat, last: nat)
    requires Schedules.IsPermutation(order, last + 1) && k < |order| && order[k] == last
    ensures Schedules.IsPermutation(order[..k] + order[k + 1..], last)
    ensures forall i :: 0 <= i < |order| && i != k ==> order[i] < last
  {
    var rest := order[..k] + order[k + 1..];
    assert order == order[..k] + [last] + order[k + 1..];
    forall i | 0 <= i < |order| && i != k ensures order[i] < last {
      assert order[i] != order[k];
    }
    forall i | 0 <= i < last ensures i in rest {
      assert i in order;
    }
  }

  // ----- securities the provider left out -----

  predicate HasMissing(items: seq<MissingItem>, code: int) {
    exists i :: 0 <= i < |items| && items[i].code == code
  }

  predicate HasQuote(quotes: seq<Quote>, code: int) {
    exists i :: 0 <= i < |quotes| && quotes[i].code == code
  }

  /** The items added for securities with neither a quote nor an item, one for each code. */
  function LeftOut(securities: seq<Security>, quotes: seq<Quote>, missing: seq<MissingItem>): seq<MissingItem> {
    if securities == [] then []
    else
      var front := LeftOut(securities[..|securities| - 1], quotes, missing);
      var code := securities[|securities| - 1].code;
      front + if HasQuote(quotes, code) || HasMissing(missing, code) || HasMissing(front, code) then []
          else [MissingItem(code, NotReturned)]
  }

  lemma {:induction false} LeftOutExactly(securities: seq<Security>, quotes: seq<Quote>, missing: seq<MissingItem>)
    ensures forall i :: 0 <= i < |securities| ==>
              HasQuote(quotes, securities[i].code)
                  || HasMissing(missing + LeftOut(securities, quotes, missing), securities[i].code)
    ensures forall item :: item in LeftOut(securities, quotes, missing) ==>
              item.reason == NotReturned && !HasQuote(quotes, item.code) && !HasMissing(missing, item.code)
    ensures forall i, j :: 0 <= i < j < |LeftOut(securities, quotes, missing)| ==>
              LeftOut(securities, quotes, missing)[i].code != LeftOut(securities, quotes, missing)[j].code
  {
    if securities != [] {
      var front := securities[..|securities| - 1];
      LeftOutExactly(front, quotes, missing);
      var before, after := LeftOut(front, quotes, missing), LeftOut(securities, quotes, missing);
      assert missing + before == (missing + after)[..|missing| + |before|];
      forall i | 0 <= i < |securities| ensures HasQuote(quotes, securities[i].code)
          || HasMissing(missing + after, securities[i].code) {
        var code := securities[i].code;
        if i < |front| && !HasQuote(quotes, code) {
          assert securities[i] == front[i];
          StillMissing(missing + before, missing + after, code);
        } else if !HasQuote(quotes, code) {
          if HasMissing(missing, code) {
            StillMissing(missing, missing + after, code);
          } else if HasMissing(before, code) {
            var j :| 0 <= j < |before| && before[j].code == code;
            assert (missing + after)[|missing| + j].code == code;
          } else {
            assert (missing + after)[|missing| + |before|].code == code;
          }
        }
      }
    }
  }

  lemma StillMissing(items: seq<MissingItem>, more: seq<MissingItem>, code: int)
    requires items <= more && HasMissing(items, code)
    ensures HasMissing(more, code)
  {
    var j :| 0 <= j < |items| && items[j].code == code;
    assert more[j].code == code;
  }

  /** Only which quotes and items there are matters, not their order. */
  lemma {:induction false} LeftOutOrder(securities: seq<Security>, quotes: seq<Quote>, missing: seq<MissingItem>,
                                        quotes': seq<Quote>, missing': seq<MissingItem>)
    requires multiset(quotes) == multiset(quotes') && multiset(missing) == multiset(missing')
    ensures LeftOut(securities, quotes, missing) == LeftOut(securities, quotes', missing')
  {
    if securities != [] {
      LeftOutOrder(securities[..|securities| - 1], quotes, missing, quotes', missing');
      var code := securities[|securities| - 1].code;
      SameQuotes(quotes, quotes', code);
      SameQuotes(quotes', quotes, code);
      SameItems(missing, missing', code);
      SameItems(missing', missing, code);
    }
  }

  lemma SameQuotes(a: seq<Quote>, b: seq<Quote>, code: int)
    requires multiset(a) == multiset(b)
    ensures HasQuote(a, code) ==> HasQuote(b, code)
  {
    if HasQuote(a, code) {
      var i :| 0 <= i < |a| && a[i].code == code;
      assert a[i] in multiset(b);
      assert a[i] in b;
    }
  }

  lemma SameItems(a: seq<MissingItem>, b: seq<MissingItem>, code: int)
    requires multiset(a) == multiset(b)
    ensures HasMissing(a, code) ==> HasMissing(b, code)
  {
    if HasMissing(a, code) {
      var i :| 0 <= i < |a| && a[i].code == code;
      assert a[i] in multiset(b);
      assert a[i] in b;
    }
  }

  // ----- which rows are quoted -----

  /** The k-th security is the last one listed under the code, and its asset type is that of the row. */
  ghost predicate Known(securities: seq<Security>, k: int, row: ProviderRow, upper: char -> char) {
    && 0 <= k < |securities| && securities[k].code == row.code
    && (forall j :: k < j < |securities| ==> securities[j].code != row.code)
    && AssetTypesMatch(securities[k].assetType, row.assetType, upper)
  }

  ghost predicate Unknown(securities: seq<Security>, row: ProviderRow, upper: char -> char) {
    forall k :: !Known(securities, k, row, upper)
  }

  /** The quote is the conversion of some row for the security it is known by. */
  ghost predicate QuotedFrom(q: Quote, securities: seq<Security>, rows: seq<ProviderRow>, convert: Convert) {
    exists i, k :: 0 <= i < |rows| && Known(securities, k, rows[i], convert.upper)
                   && q.code == rows[i].code && convert.toQuote(securities[k], rows[i]) == Ok(q.content)
  }

  /** The item says that a row is unknown, under the code it shows, or why it could not be converted. */
  ghost predicate RefusedFrom(item: MissingItem, securities: seq<Security>, rows: seq<ProviderRow>, convert: Convert) {
    || (exists i :: 0 <= i < |rows| && Unknown(securities, rows[i], convert.upper)
                    && item == MissingItem(rows[i].shown, UnknownSymbol))
    || (exists i, k :: 0 <= i < |rows| && Known(securities, k, rows[i], convert.upper)
                       && item.code == rows[i].code && convert.toQuote(securities[k], rows[i]) == Err(item.reason))
  }

  lemma {:induction false} HandledMembers(handled: seq<Handled>)
    ensures forall q :: q in Quotes(handled) <==> Found(q) in handled
    ensures forall item :: item in Refusals(handled) <==> Refused(item) in handled
  {
    if handled != [] {
      var front, last := handled[..|handled| - 1], handled[|handled| - 1];
      HandledMembers(front);
      assert handled == front + [last];
    }
  }

  /** One row: known by the security its code finds, or unknown. */
  lemma OneRowDecided(securities: seq<Security>, row: ProviderRow, convert: Convert)
    ensures var handled := Handle(ByCode(securities), row, convert);
            || (Unknown(securities, row, convert.upper) && handled == Refused(MissingItem(row.shown, UnknownSymbol)))
            || exists k :: Known(securities, k, row, convert.upper)
                           && match convert.toQuote(securities[k], row)
                              case Ok(content) => handled == Found(Quote(row.code, content))
                              case Err(reason) => handled == Refused(MissingItem(row.code, reason))
  {
    var byCode := ByCode(securities);
    LastSecurityCounts(securities, row.code);
    hide ByCode, AssetTypesMatch;
    if row.code in byCode {
      var last :| 0 <= last < |securities| && securities[last] == byCode[row.code]
                  && securities[last].code == row.code
                  && forall j :: last < j < |securities| ==> securities[j].code != row.code;
      assert forall k :: Known(securities, k, row, convert.upper) ==> k == last;
      assert AssetTypesMatch(securities[last].assetType, row.assetType, convert.upper) ==>
               Known(securities, last, row, convert.upper);
    }
  }

  lemma KnownOnce(securities: seq<Security>, j: int, k: int, row: ProviderRow, upper: char -> char)
    requires Known(securities, j, row, upper) && Known(securities, k, row, upper)
    ensures j == k
  {
  }

  /** Exactly the rows that are known and convert are quoted, and exactly the others are refused. */
  lemma RowsDecide(securities: seq<Security>, rows: seq<ProviderRow>, convert: Convert)
    ensures var handled := HandledRows(ByCode(securities), rows, convert);
            && (forall q :: q in Quotes(handled) <==> QuotedFrom(q, securities, rows, convert))
            && (forall item :: item in Refusals(handled) <==> RefusedFrom(item, securities, rows, convert))
  {
    var byCode := ByCode(securities);
    var handled := HandledRows(byCode, rows, convert);
    HandledMembers(handled);
    assert forall i :: 0 <= i < |rows| ==> handled[i] == Handle(byCode, rows[i], convert);
    hide HandledRows, Handle, ByCode, Quotes, Refusals, Known, Unknown;
    forall i | 0 <= i < |rows|
      ensures handled[i].Found? ==> QuotedFrom(handled[i].quote, securities, rows, convert)
      ensures handled[i].Refused? ==> RefusedFrom(handled[i].item, securities, rows, convert)
    {
      OneRowDecided(securities, rows[i], convert);
    }
    forall q | QuotedFrom(q, securities, rows, convert) ensures Found(q) in handled {
      var i, k :| 0 <= i < |rows| && Known(securities, k, rows[i], convert.upper)
                  && q.code == rows[i].code && convert.toQuote(securities[k], rows[i]) == Ok(q.content);
      RowKnown(securities, rows[i], k, convert);
      assert handled[i] == Found(q);
    }
    forall item | RefusedFrom(item, securities, rows, convert) ensures Refused(item) in handled {
      if i, k :| 0 <= i < |rows| && Known(securities, k, rows[i], convert.upper)
                 && item.code == rows[i].code && convert.toQuote(securities[k], rows[i]) == Err(item.reason) {
        RowKnown(securities, rows[i], k, convert);
        assert handled[i] == Refused(item);
      } else {
        var i :| 0 <= i < |rows| && Unknown(securities, rows[i], convert.upper)
                 && item == MissingItem(rows[i].shown, UnknownSymbol);
        RowUnknown(securities, rows[i], convert);
        assert handled[i] == Refused(item);
      }
    }
  }

  lemma RowKnown(securities: seq<Security>, row: ProviderRow, k: int, convert: Convert)
    requires Known(securities, k, row, convert.upper)
    ensures Handle(ByCode(securities), row, convert) ==
            match convert.toQuote(securities[k], row)
            case Ok(content) => Found(Quote(row.code, content))
            case Err(reason) => Refused(MissingItem(row.code, reason))
  {
    OneRowDecided(securities, row, convert);
    hide Handle, ByCode, Known;
    forall j | Known(securities, j, row, convert.upper) ensures j == k {
      KnownOnce(securities, j, k, row, convert.upper);
    }
  }

  lemma RowUnknown(securities: seq<Security>, row: ProviderRow, convert: Convert)
    requires Unknown(securities, row, convert.upper)
    ensures Handle(ByCode(securities), row, convert) == Refused(MissingItem(row.shown, UnknownSymbol))
  {
    OneRowDecided(securities, row, convert);
  }

  /** The outcome on the rows themselves, whatever the order of the results. */
  lemma OutcomeDecided(securities: seq<Security>, rows: seq<ProviderRow>, convert: Convert,
                       initialMissing: seq<MissingItem>, quotes: seq<Quote>, missing: seq<MissingItem>)
    requires var handled := HandledRows(ByCode(securities), rows, convert);
             var reported := initialMissing + Refusals(handled);
             && multiset(quotes) == multiset(Quotes(handled))
             && multiset(missing) == multiset(reported + LeftOut(securities, Quotes(handled), reported))
    ensures forall q :: q in quotes <==> QuotedFrom(q, securities, rows, convert)
    ensures forall item :: item in initialMissing || RefusedFrom(item, securities, rows, convert) ==> item in missing
    ensures forall item :: item in missing ==>
              || item in initialMissing || RefusedFrom(item, securities, rows, convert)
              || (item.reason == NotReturned
                  && forall q :: QuotedFrom(q, securities, rows, convert) ==> q.code != item.code)
  {
    var handled := HandledRows(ByCode(securities), rows, convert);
    var reported := initialMissing + Refusals(handled);
    RowsDecide(securities, rows, convert);
    LeftOutExactly(securities, Quotes(handled), reported);
    hide HandledRows, ByCode, Quotes, Refusals, LeftOut, QuotedFrom, RefusedFrom;
    SameMembers(quotes, Quotes(handled));
    SameMembers(missing, reported + LeftOut(securities, Quotes(handled), reported));
    forall q | q in Quotes(handled) ensures HasQuote(Quotes(handled), q.code) {
      var i :| 0 <= i < |Quotes(handled)| && Quotes(handled)[i] == q;
      assert Quotes(handled)[i].code == q.code;
    }
  }

  lemma SameMembers<T(!new)>(a: seq<T>, b: seq<T>)
    requires multiset(a) == multiset(b)
    ensures forall x :: x in a <==> x in b
  {
    forall x ensures x in a <==> x in b {
      assert x in a <==> x in multiset(a);
      assert x in b <==> x in multiset(b);
    }
  }
}
