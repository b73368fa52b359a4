/** The capability listing example (examples/list_devices.rs): the list of connector names
    for a connection flag set, and the row of pixel-format cells printed for a display
    mode. */
module ListDevices {
  import opened Common
  import opened SdkErrors
  import opened Sdk
  import opened Enums
  import opened DisplayModes
  import opened Output

  /** The connectors in the order the example tests them. */
  const PortOrder: seq<VideoConnection> := [Sdi, Hdmi, OpticalSdi, Component, Composite, SVideo]

  /** The name the example prints for a connector. */
  function PortName(c: VideoConnection): string {
    match c
    case Sdi => "SDI"
    case Hdmi => "HDMI"
    case OpticalSdi => "Optical SDI"
    case Component => "Component"
    case Composite => "Composite"
    case SVideo => "SVideo"
  }

  /** A connector's position in `PortOrder`. */
  function Rank(c: VideoConnection): (k: nat)
    ensures k < |PortOrder|
  {
    match c
    case Sdi => 0
    case Hdmi => 1
    case OpticalSdi => 2
    case Component => 3
    case Composite => 4
    case SVideo => 5
  }

  /** The one-connector list for `c` when its flag is in `ports`, else nothing. */
  function Pick(c: VideoConnection, ports: set<VideoConnection>): seq<VideoConnection> {
    if c in ports then [c] else []
  }

  /** Reference definition: the connectors of `order` that are in `ports`, keeping the
      order of `order`. */
  function Listed(order: seq<VideoConnection>, ports: set<VideoConnection>): seq<VideoConnection>
    decreases |order|
  {
    if |order| == 0 then [] else Pick(order[0], ports) + Listed(order[1..], ports)
  }

  /** The names of a connector list. */
  function Names(cs: seq<VideoConnection>): (names: seq<string>)
    ensures |names| == |cs|
    ensures forall i :: 0 <= i < |cs| ==> names[i] == PortName(cs[i])
  {
    seq(|cs|, i requires 0 <= i < |cs| => PortName(cs[i]))
  }

  /** Naming distributes over concatenation. */
  lemma NamesAppend(a: seq<VideoConnection>, b: seq<VideoConnection>)
    ensures Names(a + b) == Names(a) + Names(b)
  {
  }

  /** Pushing a connector's name when its flag is set extends the names by its pick. */
  lemma PushName(items: seq<string>, done: seq<VideoConnection>, c: VideoConnection, ports: set<VideoConnection>)
    requires items == Names(done)
    ensures (if c in ports then items + [PortName(c)] else items) == Names(done + Pick(c, ports))
  {
    NamesAppend(done, Pick(c, ports));
  }

  /** The `list_supported_ports` closure: one name per connector present, pushed in the
      fixed connector order. */
  method ListSupportedPorts(ports: set<VideoConnection>) returns (items: seq<string>)
    ensures items == Names(Listed(PortOrder, ports))
  {
    items := [];
    PushName(items, [], Sdi, ports);
    if Sdi in ports {
      items := items + ["SDI"];
    }
    var done := [] + Pick(Sdi, ports);
    PushName(items, done, Hdmi, ports);
    if Hdmi in ports {
      items := items + ["HDMI"];
    }
    done := done + Pick(Hdmi, ports);
    PushName(items, done, OpticalSdi, ports);
    if OpticalSdi in ports {
      items := items + ["Optical SDI"];
    }
    done := done + Pick(OpticalSdi, ports);
    PushName(items, done, Component, ports);
    if Component in ports {
      items := items + ["Component"];
    }
    done := done + Pick(Component, ports);
    PushName(items, done, Composite, ports);
    if Composite in ports {
      items := items + ["Composite"];
    }
    done := done + Pick(Composite, ports);
    PushName(items, done, SVideo, ports);
    if SVideo in ports {
      items := items + ["SVideo"];
    }
    done := done + Pick(SVideo, ports);
    ListedPortOrder(ports);
  }

  /** Concatenation regrouped. */
  lemma Regroup(a: seq<VideoConnection>, b: seq<VideoConnection>, c: seq<VideoConnection>)
    ensures a + (b + c) == (a + b) + c
  {
  }

  /** One step of `Listed`. */
  lemma ListedCons(c: VideoConnection, rest: seq<VideoConnection>, ports: set<VideoConnection>)
    ensures Listed([c] + rest, ports) == Pick(c, ports) + Listed(rest, ports)
  {
    assert ([c] + rest)[1..] == rest;
  }

  /** `Listed` over the fixed order, unfolded. */
  lemma ListedPortOrder(ports: set<VideoConnection>)
    ensures Listed(PortOrder, ports) ==
      [] + Pick(Sdi, ports) + Pick(Hdmi, ports) + Pick(OpticalSdi, ports)
      + Pick(Component, ports) + Pick(Composite, ports) + Pick(SVideo, ports)
  {
    ListedPortOrderNested(ports);
    Flatten(Pick(Sdi, ports), Pick(Hdmi, ports), Pick(OpticalSdi, ports),
            Pick(Component, ports), Pick(Composite, ports), Pick(SVideo, ports));
  }

  /** `Listed` over the fixed order, one connector at a time. */
  lemma ListedPortOrderNested(ports: set<VideoConnection>)
    ensures Listed(PortOrder, ports) ==
      Pick(Sdi, ports) + (Pick(Hdmi, ports) + (Pick(OpticalSdi, ports)
      + (Pick(Component, ports) + (Pick(Composite, ports) + Pick(SVideo, ports)))))
  {
    var s5: seq<VideoConnection> := [SVideo];
    var s4 := [Composite] + s5;
    var s3 := [Component] + s4;
    var s2 := [OpticalSdi] + s3;
    var s1 := [Hdmi] + s2;
    assert PortOrder == [Sdi] + s1;
    ListedCons(SVideo, [], ports);
    assert [SVideo] + [] == s5;
    ListedCons(Composite, s5, ports);
    ListedCons(Component, s4, ports);
    ListedCons(OpticalSdi, s3, ports);
    ListedCons(Hdmi, s2, ports);
    ListedCons(Sdi, s1, ports);
  }

  /** Six concatenated pieces, regrouped from the right to the left. */
  lemma Flatten(p1: seq<VideoConnection>, p2: seq<VideoConnection>, p3: seq<VideoConnection>,
                p4: seq<VideoConnection>, p5: seq<VideoConnection>, p6: seq<VideoConnection>)
    ensures p1 + (p2 + (p3 + (p4 + (p5 + p6)))) == [] + p1 + p2 + p3 + p4 + p5 + p6
  {
    Regroup(p1, p2, p3 + (p4 + (p5 + p6)));
    Regroup(p1 + p2, p3, p4 + (p5 + p6));
    Regroup(p1 + p2 + p3, p4, p5 + p6);
    Regroup(p1 + p2 + p3 + p4, p5, p6);
    assert [] + p1 == p1;
  }

  /** The fixed order lists each connector at its rank. */
  lemma PortOrderRanks()
    ensures forall i :: 0 <= i < |PortOrder| ==> Rank(PortOrder[i]) == i
  {
  }

  /** Every connector has its place in the fixed order. */
  lemma InPortOrder(c: VideoConnection)
    ensures c in PortOrder && PortOrder[Rank(c)] == c
  {
  }

  /** Different connectors print different names. */
  lemma PortNameInjective(a: VideoConnection, b: VideoConnection)
    ensures PortName(a) == PortName(b) ==> a == b
  {
    if a != b && |PortName(a)| == |PortName(b)| {
      assert PortName(a)[5] != PortName(b)[5];
    }
  }

  /** A connector is listed exactly when it is in the order and in the set. */
  lemma {:induction false} ListedMembers(order: seq<VideoConnection>, ports: set<VideoConnection>, c: VideoConnection)
    ensures c in Listed(order, ports) <==> c in order && c in ports
    decreases |order|
  {
    if |order| > 0 {
      ListedMembers(order[1..], ports, c);
      assert Listed(order, ports) == Pick(order[0], ports) + Listed(order[1..], ports);
      assert c in order <==> c == order[0] || c in order[1..];
    }
  }

  /** Listing never adds entries. */
  lemma {:induction false} ListedLength(order: seq<VideoConnection>, ports: set<VideoConnection>)
    ensures |Listed(order, ports)| <= |order|
    decreases |order|
  {
    if |order| > 0 {
      ListedLength(order[1..], ports);
    }
  }

  /** The connectors of `cs` come in strictly increasing rank. */
  predicate RankIncreasing(cs: seq<VideoConnection>) {
    forall i, j :: 0 <= i < j < |cs| ==> Rank(cs[i]) < Rank(cs[j])
  }

  /** Listing keeps the order: from an order strictly increasing in rank, the listed
      connectors are strictly increasing in rank too. */
  lemma {:induction false} ListedOrdered(order: seq<VideoConnection>, ports: set<VideoConnection>)
    requires RankIncreasing(order)
    ensures RankIncreasing(Listed(order, ports))
    decreases |order|
  {
    if |order| > 0 {
      var rest := Listed(order[1..], ports);
      assert RankIncreasing(order[1..]) by {
        forall i, j | 0 <= i < j < |order[1..]|
          ensures Rank(order[1..][i]) < Rank(order[1..][j])
        {
          assert order[1..][i] == order[i + 1] && order[1..][j] == order[j + 1];
        }
      }
      ListedOrdered(order[1..], ports);
      forall k | 0 <= k < |rest|
        ensures Rank(order[0]) < Rank(rest[k])
      {
        ListedMembers(order[1..], ports, rest[k]);
        var j :| 0 <= j < |order[1..]| && order[1..][j] == rest[k];
        assert order[j + 1] == rest[k];
      }
      var l := Listed(order, ports);
      if order[0] in ports {
        assert l == [order[0]] + rest;
        forall i, j | 0 <= i < j < |l|
          ensures Rank(l[i]) < Rank(l[j])
        {
          assert l[j] == rest[j - 1];
          if i > 0 {
            assert l[i] == rest[i - 1];
          }
        }
      } else {
        assert l == rest;
      }
    }
  }

  /** What the printed list promises: a connector's name appears exactly when its flag is
      set; names appear in the order SDI, HDMI, Optical SDI, Component, Composite, SVideo,
      hence without duplicates; at most six appear; no flags give no names. */
  lemma SupportedPortsList(ports: set<VideoConnection>)
    ensures var listed := Listed(PortOrder, ports);
      var items := Names(listed);
      (forall c :: PortName(c) in items <==> c in ports)
      && RankIncreasing(listed)
      && (forall i, j :: 0 <= i < j < |items| ==> items[i] != items[j])
      && |items| <= 6
      && (ports == {} ==> items == [])
  {
    var listed := Listed(PortOrder, ports);
    var items := Names(listed);
    forall c
      ensures PortName(c) in items <==> c in ports
    {
      ListedMembers(PortOrder, ports, c);
      InPortOrder(c);
      if PortName(c) in items {
        var i :| 0 <= i < |items| && items[i] == PortName(c);
        PortNameInjective(listed[i], c);
      }
      if c in listed {
        var i :| 0 <= i < |listed| && listed[i] == c;
        assert items[i] == PortName(c);
      }
    }
    PortOrderRanks();
    ListedOrdered(PortOrder, ports);
    forall i, j | 0 <= i < j < |items|
      ensures items[i] != items[j]
    {
      assert Rank(listed[i]) < Rank(listed[j]);
      PortNameInjective(listed[i], listed[j]);
    }
    ListedLength(PortOrder, ports);
    if ports == {} {
      ListedPortOrder(ports);
    }
  }

  // ---- the pixel-format row of `print_modes` ----

  /** The cell printed for a pixel format whose support query returned `answer`: an error
      counts as `NotSupported`, and `NotSupported` prints as dashes; anything else prints
      the format's name. */
  function Cell(answer: Result<(DisplayModeSupport, Option<DisplayMode>)>, formatName: string): (text: string)
    ensures answer.Err? ==> text == "------"
    ensures answer.Ok? && answer.value.0 == NotSupported ==> text == "------"
    ensures answer.Ok? && answer.value.0 != NotSupported ==> text == formatName
  {
    var supported := match answer
      case Err(_) => NotSupported
      case Ok(v) => v.0;
    if supported == NotSupported then "------" else formatName
  }

  /** The cell due for a format given the driver's answers to its support query: its
      name exactly when the query succeeded and the support is not `NotSupported`. */
  function CellFor(status: I32, supported: U32, mode: Ptr, table: map<int, DisplayModeSupport>, formatName: string)
    : string
  {
    if IsOk(status) && SupportResult(supported, mode, table).0 != NotSupported then formatName else "------"
  }

  /** The cell of one pixel format: the support query, then its cell. */
  method QueryCell(output: OutputDevice, mode: U32, format: (U32, string), flags: U32,
                   table: map<int, DisplayModeSupport>)
    returns (text: string, ghost status: I32, ghost supported: U32, ghost displayMode: Ptr)
    modifies output.ptr.driver
    ensures text == CellFor(status, supported, displayMode, table, format.1)
    ensures output.ptr.driver.trace == old(output.ptr.driver.trace)
      + [OutputDoesSupportVideoMode(output.ptr.dev, mode, format.0, flags)]
    ensures output.ptr.driver.buffers == old(output.ptr.driver.buffers)
  {
    var answer, st, sup, dm := output.DoesSupportVideoMode(mode, format.0, flags, table);
    text := Cell(answer, format.1);
    status, supported, displayMode := st, sup, dm;
  }

  /** One row of `print_modes`: for each pixel format in turn, ask the device whether it
      supports `mode` in that format with `flags`, and print its cell. A format gets its
      name exactly when the driver answered `S_OK` and the support result is not
      `NotSupported`. */
  method ModeRow(output: OutputDevice, mode: U32, formats: seq<(U32, string)>, flags: U32,
                 table: map<int, DisplayModeSupport>)
    returns (cells: seq<string>, ghost statuses: seq<I32>, ghost supported: seq<U32>, ghost modes: seq<Ptr>)
    modifies output.ptr.driver
    ensures |cells| == |formats| && |statuses| == |formats|
    ensures |supported| == |formats| && |modes| == |formats|
    ensures forall i :: 0 <= i < |formats| ==>
      cells[i] == CellFor(statuses[i], supported[i], modes[i], table, formats[i].1)
    ensures output.ptr.driver.trace == old(output.ptr.driver.trace)
      + seq(|formats|, i requires 0 <= i < |formats| =>
              OutputDoesSupportVideoMode(output.ptr.dev, mode, formats[i].0, flags))
    ensures output.ptr.driver.buffers == old(output.ptr.driver.buffers)
  {
    cells, statuses, supported, modes := [], [], [], [];
    for i := 0 to |formats|
      invariant |cells| == i && |statuses| == i && |supported| == i && |modes| == i
      invariant forall k :: 0 <= k < i ==>
        cells[k] == CellFor(statuses[k], supported[k], modes[k], table, formats[k].1)
      invariant output.ptr.driver.trace == old(output.ptr.driver.trace)
        + seq(i, k requires 0 <= k < i && k < |formats| =>
                OutputDoesSupportVideoMode(output.ptr.dev, mode, formats[k].0, flags))
      invariant output.ptr.driver.buffers == old(output.ptr.driver.buffers)
    {
      var text, st, sup, dm := QueryCell(output, mode, formats[i], flags, table);
      cells, statuses, supported, modes := cells + [text], statuses + [st], supported + [sup], modes + [dm];
    }
  }
}
