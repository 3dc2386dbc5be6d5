/** The three tables the tool prints: images, machines, and the network
    addresses of one machine.  A table is a header, an optional width and a
    list of rows of cells; the text layout is left to the rendering library. */
module Tables {
  import opened Base
  import opened Records
  import opened Text
  import opened Utils
  import opened ImageStructs

  /** What a table holds once built. */
  datatype TableView = TableView(header: seq<string>, width: Option<u16>, rows: seq<seq<string>>)

  /** The mutable table the builders fill in. */
  class Table {
    var header: seq<string>
    var width: Option<u16>
    var rows: seq<seq<string>>

    constructor ()
      ensures header == [] && width == None && rows == []
    {
      header, width, rows := [], None, [];
    }

    function View(): TableView
      reads this
    {
      TableView(header, width, rows)
    }

    method SetHeader(cells: seq<string>)
      modifies this`header
      ensures header == cells
    {
      header := cells;
    }

    method SetWidth(w: u16)
      modifies this`width
      ensures width == Some(w)
    {
      width := Some(w);
    }

    method AddRow(cells: seq<string>)
      modifies this`rows
      ensures rows == old(rows) + [cells]
    {
      rows := rows + [cells];
    }
  }

  // ---------------------------------------------------------------------------
  // Images

  const IMAGES_HEADER: seq<string> := ["Name", "Type", "Read Only", "Usage", "Created", "Modified"]

  /** One image row; `usageInGb` stands for the image's usage formatter and
      `formatDate` for the date formatter, both outside this model. */
  function ImageRow(d: ImageData, usageInGb: ImageData -> string, formatDate: int -> string): seq<string> {
    [d.name, d.typeField, BoolText(d.ro), usageInGb(d),
     Stamp(Seconds(d.created), formatDate), Stamp(Seconds(d.modified), formatDate)]
  }

  function ImageRows(images: seq<ImageData>, usageInGb: ImageData -> string, formatDate: int -> string): (rows: seq<seq<string>>)
    ensures |rows| == |images|
    ensures forall i :: 0 <= i < |images| ==> rows[i] == ImageRow(images[i], usageInGb, formatDate)
  {
    if images == [] then []
    else ImageRows(images[..|images| - 1], usageInGb, formatDate) + [ImageRow(images[|images| - 1], usageInGb, formatDate)]
  }

  function ImagesView(images: seq<ImageData>, width: Option<u16>, usageInGb: ImageData -> string, formatDate: int -> string): TableView {
    TableView(IMAGES_HEADER, width, ImageRows(images, usageInGb, formatDate))
  }

  /** The images table: a six-column header, the caller's width, and one
      six-cell row per image in input order whose cells are the name, the
      type, the read-only flag as "true"/"false", the usage and the two
      converted times ("-" for a time under one second). */
  lemma ImagesViewShape(images: seq<ImageData>, width: Option<u16>, usageInGb: ImageData -> string, formatDate: int -> string, i: int)
    requires 0 <= i < |images|
    requires forall s :: s != 0 ==> formatDate(s) != "-"
    ensures var v := ImagesView(images, width, usageInGb, formatDate);
      |v.header| == 6 && v.width == width && |v.rows| == |images| && |v.rows[i]| == 6
      && v.rows[i][0] == images[i].name && v.rows[i][1] == images[i].typeField
      && v.rows[i][2] == (if images[i].ro then "true" else "false")
      && v.rows[i][3] == usageInGb(images[i])
      && (v.rows[i][4] == "-" <==> -MICROS_PER_SECOND < images[i].created < MICROS_PER_SECOND)
      && (v.rows[i][5] == "-" <==> -MICROS_PER_SECOND < images[i].modified < MICROS_PER_SECOND)
  {
    SecondsZeroIff(images[i].created);
    SecondsZeroIff(images[i].modified);
  }

  /** `create_images_table`. */
  method CreateImagesTable(images: seq<ImageData>, width: Option<u16>, usageInGb: ImageData -> string, formatDate: int -> string)
    returns (t: Table)
    ensures fresh(t)
    ensures t.View() == ImagesView(images, width, usageInGb, formatDate)
  {
    t := new Table();
    t.SetHeader(IMAGES_HEADER);
    if width.Some? {
      t.SetWidth(width.value);
    }
    for i := 0 to |images|
      invariant t.header == IMAGES_HEADER && t.width == width
      invariant t.rows == ImageRows(images[..i], usageInGb, formatDate)
    {
      var image := new Image(images[i]);
      var usage := usageInGb(image.Data());
      var created := image.CreatedToTimestamp(formatDate);
      var modified := image.ModifiedToTimestamp(formatDate);
      t.AddRow([image.name, image.typeField, BoolText(image.ro), usage, created, modified]);
      assert images[..i + 1][..i] == images[..i];
    }
    assert images[..|images|] == images;
  }

  // ---------------------------------------------------------------------------
  // Machines

  const MACHINES_HEADER: seq<string> := ["MACHINE", "CLASS", "SERVICE", "OS", "VERSION", "ADDRESSES"]

  /** The six optional fields of a machine, in column order. */
  function MachineFields(m: Machine): seq<Option<string>> {
    [m.machine, m.machineClass, m.service, m.os, m.version, m.addresses]
  }

  function MachineRow(m: Machine): seq<string> {
    [OptStringEval(m.machine), OptStringEval(m.machineClass), OptStringEval(m.service),
     OptStringEval(m.os), OptStringEval(m.version), OptStringEval(m.addresses)]
  }

  function MachineRows(machines: seq<Machine>): (rows: seq<seq<string>>)
    ensures |rows| == |machines|
    ensures forall i :: 0 <= i < |machines| ==> rows[i] == MachineRow(machines[i])
  {
    if machines == [] then []
    else MachineRows(machines[..|machines| - 1]) + [MachineRow(machines[|machines| - 1])]
  }

  function MachinesView(machines: seq<Machine>, width: Option<u16>): TableView {
    TableView(MACHINES_HEADER, width, MachineRows(machines))
  }

  /** The machines table: one six-cell row per machine in input order, each
      cell the field's value or "-" when the field is absent. */
  lemma MachinesViewShape(machines: seq<Machine>, width: Option<u16>, i: int, k: int)
    requires 0 <= i < |machines| && 0 <= k < 6
    ensures var v := MachinesView(machines, width);
      |v.header| == 6 && v.width == width && |v.rows| == |machines| && |v.rows[i]| == 6
      && var field := MachineFields(machines[i])[k];
         v.rows[i][k] == (if field.Some? then field.value else "-")
  {
  }

  /** `create_machines_table`. */
  method CreateMachinesTable(machines: seq<Machine>, width: Option<u16>) returns (t: Table)
    ensures fresh(t)
    ensures t.View() == MachinesView(machines, width)
  {
    t := new Table();
    t.SetHeader(MACHINES_HEADER);
    if width.Some? {
      t.SetWidth(width.value);
    }
    for i := 0 to |machines|
      invariant t.header == MACHINES_HEADER && t.width == width
      invariant t.rows == MachineRows(machines[..i])
    {
      var machine := machines[i];
      t.AddRow([OptStringEval(machine.machine), OptStringEval(machine.machineClass), OptStringEval(machine.service),
                OptStringEval(machine.os), OptStringEval(machine.version), OptStringEval(machine.addresses)]);
      assert machines[..i + 1][..i] == machines[..i];
    }
    assert machines[..|machines|] == machines;
  }

  // ---------------------------------------------------------------------------
  // Network configuration of one machine

  const NETWORK_HEADER: seq<string> :=
    ["Machine", "Iface Family", "Iface Name", "IP Address", "Broadcast", "mtu", "Operstate", "Type", "MAC Address"]

  /** One row per address: the machine name given by the caller, then address
      and interface fields; an absent broadcast is the empty string. */
  function NetworkRow(machine: string, iface: InterfaceConfig, addr: AddrInfo): seq<string> {
    [machine, addr.family, iface.ifname, addr.local,
     if addr.broadcast.Some? then addr.broadcast.value else "",
     IntText(iface.mtu), iface.operstate, iface.linkType, iface.address]
  }

  /** The rows of one interface, one per address, in order. */
  function InterfaceRows(machine: string, iface: InterfaceConfig, count: nat): (rows: seq<seq<string>>)
    requires count <= |iface.addrInfo|
    ensures |rows| == count
    ensures forall j :: 0 <= j < count ==> rows[j] == NetworkRow(machine, iface, iface.addrInfo[j])
  {
    if count == 0 then []
    else InterfaceRows(machine, iface, count - 1) + [NetworkRow(machine, iface, iface.addrInfo[count - 1])]
  }

  /** The rows of all interfaces, interface by interface. */
  function NetworkRows(machine: string, ifaces: seq<InterfaceConfig>): seq<seq<string>> {
    if ifaces == [] then []
    else
      var last := ifaces[|ifaces| - 1];
      NetworkRows(machine, ifaces[..|ifaces| - 1]) + InterfaceRows(machine, last, |last.addrInfo|)
  }

  /** The number of addresses over all interfaces. */
  function AddressCount(ifaces: seq<InterfaceConfig>): nat {
    if ifaces == [] then 0 else AddressCount(ifaces[..|ifaces| - 1]) + |ifaces[|ifaces| - 1].addrInfo|
  }

  function NetworkView(machine: string, ifaces: seq<InterfaceConfig>): TableView {
    TableView(NETWORK_HEADER, None, NetworkRows(machine, ifaces))
  }

  /** There are as many network rows as addresses; an interface without
      addresses contributes none. */
  lemma {:induction false} NetworkRowsCount(machine: string, ifaces: seq<InterfaceConfig>)
    ensures |NetworkRows(machine, ifaces)| == AddressCount(ifaces)
  {
    if ifaces != [] {
      NetworkRowsCount(machine, ifaces[..|ifaces| - 1]);
    }
  }

  /** Rows are grouped interface by interface: the rows of a concatenation
      are the rows of each part, in order. */
  lemma {:induction false} NetworkRowsAppend(machine: string, a: seq<InterfaceConfig>, b: seq<InterfaceConfig>)
    ensures NetworkRows(machine, a + b) == NetworkRows(machine, a) + NetworkRows(machine, b)
    ensures AddressCount(a + b) == AddressCount(a) + AddressCount(b)
    decreases |b|
  {
    if b == [] {
      assert a + b == a;
    } else {
      var b', last := b[..|b| - 1], b[|b| - 1];
      var lastRows := InterfaceRows(machine, last, |last.addrInfo|);
      assert (a + b)[..|a + b| - 1] == a + b';
      assert (a + b)[|a + b| - 1] == last;
      NetworkRowsAppend(machine, a, b');
      calc {
        NetworkRows(machine, a + b);
        NetworkRows(machine, a + b') + lastRows;
        (NetworkRows(machine, a) + NetworkRows(machine, b')) + lastRows;
        { AppendAssoc(NetworkRows(machine, a), NetworkRows(machine, b'), lastRows); }
        NetworkRows(machine, a) + NetworkRows(machine, b);
      }
    }
  }

  /** The rows of all interfaces are those before interface `i`, then those
      of interface `i` (one per address, in order), then those after it; the
      rows before it number as many as the addresses before it. */
  lemma NetworkRowsSplit(machine: string, ifaces: seq<InterfaceConfig>, i: int)
    requires 0 <= i < |ifaces|
    ensures NetworkRows(machine, ifaces)
            == NetworkRows(machine, ifaces[..i]) + InterfaceRows(machine, ifaces[i], |ifaces[i].addrInfo|)
               + NetworkRows(machine, ifaces[i + 1..])
    ensures |NetworkRows(machine, ifaces[..i])| == AddressCount(ifaces[..i])
  {
    NetworkRowsCount(machine, ifaces[..i]);
    var upTo, after := ifaces[..i + 1], ifaces[i + 1..];
    assert ifaces == upTo + after;
    NetworkRowsAppend(machine, upTo, after);
    NetworkRowsPrefix(machine, ifaces, i);
  }

  /** The rows of the first `i + 1` interfaces extend those of the first `i`
      by the rows of interface `i`. */
  lemma NetworkRowsPrefix(machine: string, ifaces: seq<InterfaceConfig>, i: int)
    requires 0 <= i < |ifaces|
    ensures NetworkRows(machine, ifaces[..i + 1])
            == NetworkRows(machine, ifaces[..i]) + InterfaceRows(machine, ifaces[i], |ifaces[i].addrInfo|)
  {
    var upTo := ifaces[..i + 1];
    assert upTo[..|upTo| - 1] == ifaces[..i] && upTo[|upTo| - 1] == ifaces[i];
  }

  /** Every network row has the nine header columns and starts with the
      machine name it was built for; the table never has a width. */
  lemma {:induction false} NetworkRowsShape(machine: string, ifaces: seq<InterfaceConfig>, k: int)
    requires 0 <= k < |NetworkRows(machine, ifaces)|
    ensures |NETWORK_HEADER| == 9 && NetworkView(machine, ifaces).width == None
    ensures |NetworkRows(machine, ifaces)[k]| == 9 && NetworkRows(machine, ifaces)[k][0] == machine
  {
    var init := ifaces[..|ifaces| - 1];
    if k >= |NetworkRows(machine, init)| {
    } else {
      NetworkRowsShape(machine, init, k);
    }
  }

  /** Every network row is the row of one address of one interface; when
      that address has no broadcast, the broadcast cell is empty, not `"-"`. */
  lemma {:induction false} NetworkRowsOrigin(machine: string, ifaces: seq<InterfaceConfig>, k: int)
    requires 0 <= k < |NetworkRows(machine, ifaces)|
    ensures exists i, j ::
      && 0 <= i < |ifaces| && 0 <= j < |ifaces[i].addrInfo|
      && NetworkRows(machine, ifaces)[k] == NetworkRow(machine, ifaces[i], ifaces[i].addrInfo[j])
      && (ifaces[i].addrInfo[j].broadcast.None? ==> NetworkRows(machine, ifaces)[k][4] == "")
  {
    var init, last := ifaces[..|ifaces| - 1], ifaces[|ifaces| - 1];
    var before := NetworkRows(machine, init);
    if k >= |before| {
      var j := k - |before|;
      assert NetworkRows(machine, ifaces)[k] == InterfaceRows(machine, last, |last.addrInfo|)[j];
      assert NetworkRows(machine, ifaces)[k] == NetworkRow(machine, ifaces[|ifaces| - 1], ifaces[|ifaces| - 1].addrInfo[j]);
    } else {
      NetworkRowsOrigin(machine, init, k);
      var i, j :| 0 <= i < |init| && 0 <= j < |init[i].addrInfo|
        && before[k] == NetworkRow(machine, init[i], init[i].addrInfo[j]);
      assert init[i] == ifaces[i];
      assert NetworkRows(machine, ifaces)[k] == before[k];
    }
  }

  /** `create_network_configs_table`, with its nested loops. */
  method CreateNetworkConfigsTable(machine: string, ifaces: seq<InterfaceConfig>) returns (t: Table)
    ensures fresh(t)
    ensures t.View() == NetworkView(machine, ifaces)
  {
    t := new Table();
    t.SetHeader(NETWORK_HEADER);
    for i := 0 to |ifaces|
      invariant t.header == NETWORK_HEADER && t.width == None
      invariant t.rows == NetworkRows(machine, ifaces[..i])
    {
      var network := ifaces[i];
      assert ifaces[..i + 1][..i] == ifaces[..i];
      for j := 0 to |network.addrInfo|
        invariant t.header == NETWORK_HEADER && t.width == None
        invariant t.rows == NetworkRows(machine, ifaces[..i]) + InterfaceRows(machine, network, j)
      {
        var addrinfo := network.addrInfo[j];
        t.AddRow([machine, addrinfo.family, network.ifname, addrinfo.local,
                  if addrinfo.broadcast.Some? then addrinfo.broadcast.value else "",
                  IntText(network.mtu), network.operstate, network.linkType, network.address]);
      }
    }
    assert ifaces[..|ifaces|] == ifaces;
  }
}
