/** Broker-facing data: order-status observations and exact fills. */
module Broker {
  import opened Common

  datatype OrderStatus =
    PENDING | SUBMITTED | WORKING | PARTIALLY_FILLED | FILLED | CANCELLED | REJECTED | EXPIRED

  /** An order-status observation. An absent order id, price or error code is the empty string or zero. */
  datatype BrokerOrderResult = BrokerOrderResult(
    orderId: string,
    status: OrderStatus,
    filledQuantity: real,
    averagePrice: real,
    commission: real,
    errorCode: string
  ) {
    /** Whether the broker reported any economically realized quantity. */
    predicate HasFill() {
      filledQuantity > 0.0 && averagePrice > 0.0
    }
  }

  /** Where a simulated fill came from; any part may be missing in what a broker hands over. */
  datatype Provenance = Provenance(priceId: Option<int>, revision: Option<int>, policy: Option<string>)

  const NO_PROVENANCE := Provenance(None, None, None)

  datatype BrokerFill = BrokerFill(
    tradeId: string,
    orderId: string,
    symbol: string,
    side: string,
    quantity: real,
    price: real,
    commission: real,
    currency: string,
    timestamp: int,
    venue: string,
    provenance: Provenance
  )

  predicate IsSpace(c: char) {
    c == ' ' || c == '\t' || c == '\n' || c == '\r'
  }

  /** Removes leading and trailing white space. */
  function Strip(s: string): (r: string)
    ensures |r| <= |s|
    ensures r != "" ==> !IsSpace(r[0]) && !IsSpace(r[|r| - 1])
    ensures r == "" ==> forall i :: 0 <= i < |s| ==> IsSpace(s[i])
    ensures (s == "" || (!IsSpace(s[0]) && !IsSpace(s[|s| - 1]))) ==> r == s
    decreases |s|
  {
    if s == "" then s
    else if IsSpace(s[0]) then Strip(s[1..])
    else if IsSpace(s[|s| - 1]) then Strip(s[..|s| - 1])
    else s
  }

  ghost predicate Blank(s: string) {
    forall i :: 0 <= i < |s| ==> s[i] == ' ' || s[i] == '\t' || s[i] == '\n' || s[i] == '\r'
  }

  /** Stripping takes white space off both ends and nothing else. */
  lemma {:induction false} StripIsMiddle(s: string) returns (a: string, b: string)
    ensures s == a + Strip(s) + b && Blank(a) && Blank(b)
    decreases |s|
  {
    if s != "" && IsSpace(s[0]) {
      assert Strip(s) == Strip(s[1..]);
      hide Strip;
      var rest;
      rest, b := StripIsMiddle(s[1..]);
      a := [s[0]] + rest;
      assert s == [s[0]] + s[1..];
    } else if s != "" && IsSpace(s[|s| - 1]) {
      assert Strip(s) == Strip(s[..|s| - 1]);
      hide Strip;
      var rest;
      a, rest := StripIsMiddle(s[..|s| - 1]);
      b := rest + [s[|s| - 1]];
      assert s == s[..|s| - 1] + [s[|s| - 1]];
    } else {
      a, b := "", "";
    }
  }
}
