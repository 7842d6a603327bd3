/** The instance table ShowInstances writes to stderr: its header, one row
    per instance in the order given, and the number of lines it occupies. */
module Display {
  import opened Wrappers
  import opened Faults
  import Decimal

  /** The text of each probe's outcome, as received from the instance's
      ICMP, SSH, HTTP and HTTPS probe channels. */
  datatype Probes = Probes(icmp: string, ssh: string, http: string, https: string)

  /** A discovered instance: provider ID (such as "i-0123abcd"), private
      address, uptime, and the outcomes of its four probes. */
  datatype Instance = Instance(instanceID: string, privateIP: string, up: int, probes: Probes)

  /** The instance accessors whose definitions are not part of this model:
      Instance.Name, Instance.PrettyState and fmtDuration. */
  datatype View = View(name: Instance -> string, prettyState: Instance -> string, fmtDuration: int -> string)

  datatype Table = Table(header: seq<string>, rows: seq<seq<string>>)

  /** Lines the table writer draws besides its data rows (N_TABLE_DECORATIONS):
      the top border, the header, the rule below it and the bottom border. */
  const TableDecorations: nat := 4

  const Header: seq<string> :=
    ["N", "ID", "Name", "S", "Private", "Launch", "ICMP", "SSH", "HTTP", "HTTPS"]

  /** Lines the program assumes a rendered table takes on the terminal
      (data rows plus N_TABLE_DECORATIONS).  A wrapped cell, or a table wider
      than the terminal, would take more. */
  function RenderedLines(t: Table): nat {
    |t.rows| + TableDecorations
  }

  /** Row `k` of the table, for instance `i`. */
  function Row(k: nat, i: Instance, view: View): seq<string>
    requires |i.instanceID| >= 2
  {
    [Decimal.Show(k), i.instanceID[2..], view.name(i), view.prettyState(i),
     i.privateIP, view.fmtDuration(i.up),
     i.probes.icmp, i.probes.ssh, i.probes.http, i.probes.https]
  }

  /** What a row shows of instance `i` at position `k`: ten cells; the first
      is the canonical decimal text of `k`; the second is the ID without its
      two-character prefix, so that prefix and cell give back the ID; then
      name, state, private address, uptime and the four probe outcomes. */
  predicate Depicts(row: seq<string>, k: nat, i: Instance, view: View) {
    && |row| == |Header|
    && Decimal.Canonical(row[0]) && Decimal.Read(row[0]) == Some(k)
    && |i.instanceID| >= 2 && i.instanceID == i.instanceID[..2] + row[1]
    && row[2] == view.name(i) && row[3] == view.prettyState(i)
    && row[4] == i.privateIP && row[5] == view.fmtDuration(i.up)
    && row[6..] == [i.probes.icmp, i.probes.ssh, i.probes.http, i.probes.https]
  }

  /** Row builds a row that depicts its instance, and it is the only one. */
  lemma RowDepicts(row: seq<string>, k: nat, i: Instance, view: View)
    requires |i.instanceID| >= 2
    ensures Depicts(row, k, i, view) <==> row == Row(k, i, view)
  {
    Decimal.ReadShow(k);
    if Depicts(row, k, i, view) {
      Decimal.ShowRead(row[0]);
      assert row[1] == i.instanceID[2..];
      assert row == Row(k, i, view);
    }
  }

  /** The first position at or after `from` whose instance ID is too short
      to drop two characters from, if there is one. */
  function FirstShortID(instances: seq<Instance>, from: nat): (r: Option<nat>)
    requires from <= |instances|
    ensures r.Some? ==> from <= r.value < |instances| && |instances[r.value].instanceID| < 2
    ensures r.Some? ==> forall j :: from <= j < r.value ==> |instances[j].instanceID| >= 2
    ensures r.None? <==> forall j :: from <= j < |instances| ==> |instances[j].instanceID| >= 2
    decreases |instances| - from
  {
    if from == |instances| then None
    else if |instances[from].instanceID| < 2 then Some(from)
    else FirstShortID(instances, from + 1)
  }

  lemma RowsDepict(instances: seq<Instance>, view: View, rows: seq<seq<string>>)
    requires |rows| == |instances|
    requires forall k :: 0 <= k < |instances| ==> |instances[k].instanceID| >= 2
    requires forall k :: 0 <= k < |instances| ==> rows[k] == Row(k, instances[k], view)
    ensures forall k :: 0 <= k < |instances| ==> Depicts(rows[k], k, instances[k], view)
  {
    forall k | 0 <= k < |instances|
      ensures Depicts(rows[k], k, instances[k], view)
    {
      RowDepicts(rows[k], k, instances[k], view);
    }
  }

  /** ShowInstances: the table of all instances, in the order given, or the
      runtime panic raised at the first instance whose ID is shorter than two
      characters (in which case nothing is rendered). */
  function ShowInstances(instances: seq<Instance>, view: View): (r: Result<Table, Fault>)
    ensures r.Success? <==> forall j :: 0 <= j < |instances| ==> |instances[j].instanceID| >= 2
    ensures r.Failure? ==> && FirstShortID(instances, 0).Some?
                           && r.error == ShortInstanceID(instances[FirstShortID(instances, 0).value].instanceID)
    ensures r.Success? ==> r.value.header == Header && |r.value.rows| == |instances|
    ensures r.Success? ==> forall k :: 0 <= k < |instances| ==> Depicts(r.value.rows[k], k, instances[k], view)
  {
    match FirstShortID(instances, 0)
    case Some(j) => Failure(ShortInstanceID(instances[j].instanceID))
    case None =>
      var rows := seq(|instances|, k requires 0 <= k < |instances| => Row(k, instances[k], view));
      RowsDepict(instances, view, rows);
      Success(Table(Header, rows))
  }

  /** A rendered table has ten columns in the header and in every row, and
      its SSH column holds each instance's SSH probe outcome. */
  lemma TableShape(instances: seq<Instance>, view: View, k: nat)
    requires ShowInstances(instances, view).Success?
    requires k < |instances|
    ensures var t := ShowInstances(instances, view).value;
      && |t.header| == 10 && |t.rows[k]| == 10
      && t.header[7] == "SSH" && t.rows[k][7] == instances[k].probes.ssh
      && RenderedLines(t) == |instances| + TableDecorations
  {
    var t := ShowInstances(instances, view).value;
    assert Depicts(t.rows[k], k, instances[k], view);
    assert t.rows[k][7] == t.rows[k][6..][1];
  }
}
