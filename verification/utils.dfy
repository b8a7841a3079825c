/**
  components/utils/utils.py: `Utils.check_functionality`, the esptool health
  probe, and `Utils.read_order`, which collects the distinct order numbers of
  a device-data file.
 */
module Utils {
  import opened Wrappers
  import Text

  /** The text esptool prints when run without arguments. */
  const UsageMarker: string := "usage:"

  /** A line mentioning this key is an order line. */
  const OrderKey: string := "order-no"

  /** The separator an order line is split on. */
  const OrderField: string := "order-no: "

  /** The message of the IndexError `line.split('order-no: ')[1]` raises. */
  const IndexErrorText: string := "list index out of range"

  // ---------------------------------------------------------------------------
  // check_functionality

  /** How running the bare tool ended: it ran (with both output streams), it was
      not found on the PATH, or running it raised something else. */
  datatype ProbeOutcome = Completed(stdout: string, stderr: string) | NotFound | Failed(message: string)

  /** Runs an argument list to completion; the subprocess call is a parameter. */
  type Prober = seq<string> -> ProbeOutcome

  /** `check_functionality`: the tool, run bare, works iff its usage text appears
      on either output stream; a missing tool or any other exception means it
      does not. */
  function CheckFunctionality(toolPath: string, probe: Prober): (ok: bool)
    ensures var outcome := probe([toolPath]);
      ok <==> (outcome.Completed? &&
               (Text.Contains(outcome.stdout, UsageMarker) || Text.Contains(outcome.stderr, UsageMarker)))
  {
    match probe([toolPath])
    case Completed(out, err) => Text.In(UsageMarker, out) || Text.In(UsageMarker, err)
    case NotFound => false
    case Failed(_) => false
  }

  // ---------------------------------------------------------------------------
  // One order line

  ghost predicate IsOrderLine(line: string) {
    Text.Contains(line, OrderKey)
  }

  /** An order line on which `split('order-no: ')[1]` raises IndexError. */
  ghost predicate MissingField(line: string) {
    IsOrderLine(line) && !Text.Contains(line, OrderField)
  }

  /** The order value in `rest` ends at `j`: at the first comma or the first
      further "order-no: ", whichever comes first, or at the end of the line. */
  ghost predicate FieldEndsAt(rest: string, j: int) {
    && 0 <= j <= |rest|
    && (j == |rest| || rest[j] == ',' || Text.OccursAt(rest, OrderField, j))
    && forall k :: 0 <= k < j ==> rest[k] != ',' && !Text.OccursAt(rest, OrderField, k)
  }

  /** The stripped field of `rest` (the text after the separator) is `v`. */
  ghost predicate FieldValue(rest: string, v: string) {
    exists j :: FieldEndsAt(rest, j) && Text.IsStripOf(rest[..j], v)
  }

  /** Reference meaning of an extracted order number: the text after the first
      "order-no: ", up to the field's end, stripped of surrounding whitespace. */
  ghost predicate IsOrderValue(line: string, v: string) {
    exists i :: Text.FirstAt(line, OrderField, i) && FieldValue(line[i + |OrderField|..], v)
  }

  /** `line.split('order-no: ')[1].split(',')[0].strip()`; None where it raises. */
  function OrderValue(line: string): (r: Option<string>)
    ensures r.Some? <==> Text.Contains(line, OrderField)
    ensures r.Some? ==> IsOrderValue(line, r.value)
  {
    match Text.SecondField(line, OrderField)
    case None => None
    case Some(field) =>
      FieldIsOrderValue(line, field);
      Some(Text.Strip(Text.Before(field, ",")))
  }

  /** The second field of an order line, cut at its first comma and stripped, is
      the line's order value. */
  lemma FieldIsOrderValue(line: string, field: string)
    requires Text.SecondField(line, OrderField) == Some(field)
    ensures IsOrderValue(line, Text.Strip(Text.Before(field, ",")))
  {
    var i :| Text.FirstAt(line, OrderField, i) && Text.FieldAfter(line, OrderField, i, field);
    CutIsFieldValue(line[i + |OrderField|..]);
  }

  /** The two cuts of `read_order` select the field `FieldValue` describes. */
  lemma CutIsFieldValue(rest: string)
    ensures FieldValue(rest, Text.Strip(Text.Before(Text.Before(rest, OrderField), ",")))
  {
    var field := Text.Before(rest, OrderField);
    var cut := Text.Before(field, ",");
    FieldEnd(rest, field, cut);
    assert cut == rest[..|cut|];
    assert Text.IsStripOf(rest[..|cut|], Text.Strip(cut));
  }

  /** Cutting at the next "order-no: " and then at the first comma ends the value
      where the earlier of the two occurs. */
  lemma FieldEnd(rest: string, field: string, cut: string)
    requires field == Text.Before(rest, OrderField) && cut == Text.Before(field, ",")
    ensures FieldEndsAt(rest, |cut|)
  {
    forall k | 0 <= k < |cut|
      ensures rest[k] != ',' && !Text.OccursAt(rest, OrderField, k)
    {
      assert !Text.OccursAt(field, ",", k);
      assert field[k..k + 1] == [field[k]];
    }
    if |cut| < |field| {
      assert Text.OccursAt(field, ",", |cut|);
      assert field[|cut|..|cut| + 1] == [field[|cut|]];
    }
  }

  // ---------------------------------------------------------------------------
  // read_order

  /** How `read_order` treats one line: ignored, an order line with its value,
      or an order line on which the split raises IndexError. */
  datatype LineKind = Other | Order(value: string) | Broken

  /** The branch `read_order` takes on `line`. */
  function Classify(line: string): (c: LineKind)
    ensures c.Broken? <==> MissingField(line)
    ensures c.Order? <==> IsOrderLine(line) && Text.Contains(line, OrderField)
    ensures c.Order? ==> IsOrderValue(line, c.value)
  {
    if !Text.In(OrderKey, line) then Other
    else match OrderValue(line)
      case None => Broken
      case Some(v) => Order(v)
  }

  /** The classification of every line. */
  ghost function Kinds(lines: seq<string>): (ks: seq<LineKind>)
    ensures |ks| == |lines| && forall i :: 0 <= i < |lines| ==> ks[i] == Classify(lines[i])
  {
    seq(|lines|, i requires 0 <= i < |lines| => Classify(lines[i]))
  }

  /** Line `i` is an order line whose value is `v`. */
  ghost predicate Yields(ks: seq<LineKind>, i: int, v: string) {
    0 <= i < |ks| && ks[i] == Order(v)
  }

  ghost predicate NoDuplicates(vs: seq<string>) {
    forall p, q :: 0 <= p < q < |vs| ==> vs[p] != vs[q]
  }

  /** Values are listed in the order of their first occurrence among the first
      `n` lines: every line yielding a later value comes after a line yielding
      each earlier one. */
  ghost predicate FirstSeenOrder(ks: seq<LineKind>, n: int, vs: seq<string>) {
    forall p, q, i :: 0 <= p < q < |vs| && 0 <= i < n && Yields(ks, i, vs[q]) ==> SeenBefore(ks, i, vs[p])
  }

  /** Some line before line `i` yields `v`. */
  ghost predicate SeenBefore(ks: seq<LineKind>, i: int, v: string) {
    exists j :: 0 <= j < i && Yields(ks, j, v)
  }

  /** The number of order lines with a value. */
  ghost function OrderLines(ks: seq<LineKind>): nat {
    if ks == [] then 0
    else OrderLines(ks[..|ks| - 1]) + (if ks[|ks| - 1].Order? then 1 else 0)
  }

  /** What `read_order` has collected after the first `k` lines, when none of
      them raised. */
  ghost predicate Collected(ks: seq<LineKind>, k: int, orders: seq<string>) {
    && 0 <= k <= |ks|
    && NoDuplicates(orders)
    && (forall v :: v in orders <==> exists i :: 0 <= i < k && Yields(ks, i, v))
    && FirstSeenOrder(ks, k, orders)
    && |orders| <= OrderLines(ks[..k])
  }

  /** Counting order lines one more line at a time. */
  lemma OrderLinesStep(ks: seq<LineKind>, k: int)
    requires 0 <= k < |ks|
    ensures OrderLines(ks[..k + 1]) == OrderLines(ks[..k]) + (if ks[k].Order? then 1 else 0)
  {
    var s := ks[..k + 1];
    assert s[..|s| - 1] == ks[..k];
  }

  /** The value listed after line `k`: unchanged when already present. */
  function Extend(orders: seq<string>, v: string): seq<string> {
    if v in orders then orders else orders + [v]
  }

  /** Membership after an order line: exactly the values yielded so far. */
  lemma MembersOrderLine(ks: seq<LineKind>, k: int, orders: seq<string>, v: string)
    requires 0 <= k < |ks| && ks[k] == Order(v)
    requires forall u :: u in orders <==> exists i :: 0 <= i < k && Yields(ks, i, u)
    ensures forall u :: u in Extend(orders, v) <==> exists i :: 0 <= i < k + 1 && Yields(ks, i, u)
  {
    forall u
      ensures u in Extend(orders, v) <==> exists i :: 0 <= i < k + 1 && Yields(ks, i, u)
    {
      if u == v {
        assert Yields(ks, k, v);
      } else if exists i :: 0 <= i < k + 1 && Yields(ks, i, u) {
        var i :| 0 <= i < k + 1 && Yields(ks, i, u);
        assert i < k;
      }
    }
  }

  /** First-occurrence order after an order line: a new value goes last. */
  lemma OrderAfterOrderLine(ks: seq<LineKind>, k: int, orders: seq<string>, v: string)
    requires 0 <= k < |ks| && ks[k] == Order(v)
    requires forall u :: u in orders <==> exists i :: 0 <= i < k && Yields(ks, i, u)
    requires FirstSeenOrder(ks, k, orders)
    ensures FirstSeenOrder(ks, k + 1, Extend(orders, v))
  {
    var next := Extend(orders, v);
    forall p, q, i | 0 <= p < q < |next| && 0 <= i < k + 1 && Yields(ks, i, next[q])
      ensures SeenBefore(ks, i, next[p])
    {
      assert next[p] == orders[p] && orders[p] in orders;
      if i == k {
        var j :| 0 <= j < k && Yields(ks, j, orders[p]);
      } else if q == |orders| {
        assert false;
      } else {
        assert next[q] == orders[q];
      }
    }
  }

  /** First-occurrence order after any other line: nothing new is yielded. */
  lemma OrderAfterOtherLine(ks: seq<LineKind>, k: int, orders: seq<string>)
    requires 0 <= k < |ks| && !ks[k].Order?
    requires FirstSeenOrder(ks, k, orders)
    ensures FirstSeenOrder(ks, k + 1, orders)
  {
    forall p, q, i | 0 <= p < q < |orders| && 0 <= i < k + 1 && Yields(ks, i, orders[q])
      ensures SeenBefore(ks, i, orders[p])
    {
      assert i < k;
    }
  }

  /** An order line adds its value unless it is already listed. */
  lemma CollectOrderLine(ks: seq<LineKind>, k: int, orders: seq<string>, v: string)
    requires Collected(ks, k, orders) && k < |ks| && ks[k] == Order(v)
    ensures Collected(ks, k + 1, Extend(orders, v))
  {
    OrderLinesStep(ks, k);
    MembersOrderLine(ks, k, orders, v);
    OrderAfterOrderLine(ks, k, orders, v);
  }

  /** Any other line is skipped. */
  lemma CollectOtherLine(ks: seq<LineKind>, k: int, orders: seq<string>)
    requires Collected(ks, k, orders) && k < |ks| && !ks[k].Order?
    ensures Collected(ks, k + 1, orders)
  {
    OrderLinesStep(ks, k);
    OrderAfterOtherLine(ks, k, orders);
  }

  /**
    The loop of `read_order` over the classified lines: each order line
    contributes its value once, at its first occurrence; a broken line raises
    IndexError, which ends the whole read.
   */
  method Collect(ks: seq<LineKind>) returns (r: Result<seq<string>, string>)
    ensures r.Err? <==> exists i :: 0 <= i < |ks| && ks[i].Broken?
    ensures r.Err? ==> r.error == IndexErrorText
    ensures r.Ok? ==> Collected(ks, |ks|, r.value)
  {
    var orders: seq<string> := [];
    var k := 0;
    assert ks[..0] == [];
    while k < |ks|
      invariant 0 <= k <= |ks|
      invariant forall i :: 0 <= i < k ==> !ks[i].Broken?
      invariant Collected(ks, k, orders)
    {
      match ks[k] {
        case Broken =>
          return Err(IndexErrorText);
        case Other =>
          CollectOtherLine(ks, k, orders);
        case Order(v) =>
          CollectOrderLine(ks, k, orders, v);
          orders := Extend(orders, v);
      }
      k := k + 1;
    }
    return Ok(orders);
  }

  /** `read_order` over the lines of the file. */
  method ReadOrder(lines: seq<string>) returns (r: Result<seq<string>, string>)
    ensures r.Err? <==> exists i :: 0 <= i < |lines| && MissingField(lines[i])
    ensures r.Err? ==> r.error == IndexErrorText
    ensures r.Ok? ==> NoDuplicates(r.value)
    ensures r.Ok? ==> forall v :: v in r.value <==> exists i :: Yields(Kinds(lines), i, v)
    ensures r.Ok? ==> FirstSeenOrder(Kinds(lines), |lines|, r.value)
    ensures r.Ok? ==> |r.value| <= OrderLines(Kinds(lines))
  {
    var ks := seq(|lines|, i requires 0 <= i < |lines| => Classify(lines[i]));
    assert ks == Kinds(lines) && ks[..|ks|] == ks;
    r := Collect(ks);
    BrokenIffMissing(lines);
  }

  /** A line is broken exactly when it is an order line without the separator. */
  lemma BrokenIffMissing(lines: seq<string>)
    ensures (exists i :: 0 <= i < |lines| && Kinds(lines)[i].Broken?)
        <==> (exists i :: 0 <= i < |lines| && MissingField(lines[i]))
  {
    var ks := Kinds(lines);
    if exists i :: 0 <= i < |lines| && MissingField(lines[i]) {
      var i :| 0 <= i < |lines| && MissingField(lines[i]);
      assert ks[i].Broken?;
    }
  }
}
