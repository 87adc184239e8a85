/** The detach/reattach driver of recinder.py: `block_device_action` and the
    top-level sequence that builds the inventory once and then runs the
    remove pass and the add pass over it. The calls to the OpenStack CLI are
    not made; each one is recorded, after the line printed before it, in a
    trace of effects. */
module Driver {
  import opened PyStrings
  import opened Inventory
  import opened Ordering
  import opened Sequences

  datatype Direction = Remove | Add

  /** The `direction` argument as the script spells it. */
  function Word(d: Direction): string {
    match d
    case Remove => "remove"
    case Add => "add"
  }

  /** One `openstack server <direction> volume <instance> <volume>` call. The
      device path is not part of it: the control plane picks the device on
      reattachment. */
  datatype Command = Command(direction: Direction, instance: string, volume: string)

  /** What the script does for one command: print it, then run it. */
  datatype Effect = Print(line: string) | Call(argv: seq<string>)

  /** `volume_id[1:-1]`: the raw id without its first and last characters,
      that is, without the quotes the CSV listing puts around it. Python's
      slice gives the empty string for ids shorter than two characters. */
  function VolumeArg(raw: string): (r: string)
    ensures |raw| >= 2 ==> raw == [raw[0]] + r + [raw[|raw| - 1]]
    ensures |raw| < 2 ==> r == ""
  {
    if |raw| >= 2 then raw[1..|raw| - 1] else ""
  }

  /** The quoted id of the listing is passed on unquoted. */
  lemma VolumeArgUnquotes(id: string)
    ensures VolumeArg("\"" + id + "\"") == id
  {
    var raw := "\"" + id + "\"";
    assert raw[1..|raw| - 1] == id;
  }

  /** The line printed for a command. */
  function PrintedLine(c: Command): string {
    "openstack server " + Word(c.direction) + " volume " + c.instance + " " + c.volume
  }

  /** The argument vector of the `subprocess.call` for a command. */
  function Argv(c: Command): seq<string> {
    ["openstack", "server", Word(c.direction), "volume", c.instance, c.volume]
  }

  /** The printed line is exactly the call's arguments joined by spaces, so
      both carry the same direction, instance and volume. */
  lemma PrintedLineIsCall(c: Command)
    ensures Join(Argv(c), ' ') == PrintedLine(c)
    ensures Argv(c)[2] == Word(c.direction) && Argv(c)[4] == c.instance && Argv(c)[5] == c.volume
  {
    JoinSix("openstack", "server", Word(c.direction), "volume", c.instance, c.volume);
  }

  lemma JoinSix(a: string, b: string, c: string, d: string, e: string, f: string)
    ensures Join([a, b, c, d, e, f], ' ') == a + " " + b + " " + c + " " + d + " " + e + " " + f
  {
    var parts := [a, b, c, d, e, f];
    assert Join(parts[5..], ' ') == f by { assert parts[5..] == [f]; }
    assert Join(parts[4..], ' ') == e + " " + f by { assert parts[4..][1..] == parts[5..]; }
    assert Join(parts[3..], ' ') == d + " " + e + " " + f by { assert parts[3..][1..] == parts[4..]; }
    assert Join(parts[2..], ' ') == c + " " + d + " " + e + " " + f by { assert parts[2..][1..] == parts[3..]; }
    assert Join(parts[1..], ' ') == b + " " + c + " " + d + " " + e + " " + f by { assert parts[1..][1..] == parts[2..]; }
  }

  /** What the script does for one command: the `print`, then the
      `subprocess.call`. */
  function Emit(c: Command): seq<Effect> {
    [Print(PrintedLine(c)), Call(Argv(c))]
  }

  /** The effects of a sequence of commands, one after the other. */
  function Effects(cmds: seq<Command>): seq<Effect> {
    if cmds == [] then []
    else Effects(cmds[..|cmds| - 1]) + Emit(cmds[|cmds| - 1])
  }

  /** The commands for one instance's entries taken in the given order: one
      per entry, with the entry's volume id unquoted. */
  function Pass(d: Direction, instance: string, entries: seq<Entry>): seq<Command> {
    if entries == [] then []
    else
      Pass(d, instance, entries[..|entries| - 1])
        + [Command(d, instance, VolumeArg(entries[|entries| - 1].volumeId))]
  }

  /** The inner loop of `block_device_action` for one instance: its entries
      in sorted order. */
  function InstancePass(d: Direction, m: InstanceMap, instance: string): seq<Command>
    requires instance in m
  {
    Pass(d, instance, SortEntries(m[instance]))
  }

  /** The commands of one pass when the instances are visited in the order
      `keys`. */
  function Plan(d: Direction, m: InstanceMap, keys: seq<string>): seq<Command>
    requires forall k :: k in keys ==> k in m
  {
    if keys == [] then []
    else Plan(d, m, keys[..|keys| - 1]) + InstancePass(d, m, keys[|keys| - 1])
  }

  /** `instance_to_block_hash.keys()`: the instances in an order the model
      leaves open. */
  method InstanceKeys(m: InstanceMap) returns (keys: seq<string>)
    ensures IsEnumeration(keys, m)
  {
    keys := [];
    var rest := m.Keys;
    while rest != {}
      invariant rest <= m.Keys
      invariant forall i, j :: 0 <= i < j < |keys| ==> keys[i] != keys[j]
      invariant forall k :: k in keys ==> k in m && k !in rest
      invariant forall k :: k in m ==> k in keys || k in rest
      decreases rest
    {
      var k :| k in rest;
      keys := keys + [k];
      rest := rest - {k};
    }
  }

  /** The inner loop of `block_device_action`: one print and one call per
      entry, in the order given. */
  method ActOnInstance(direction: Direction, instance: string, devices: seq<Entry>)
    returns (trace: seq<Effect>)
    ensures trace == Effects(Pass(direction, instance, devices))
  {
    trace := [];
    var j := 0;
    while j < |devices|
      invariant 0 <= j <= |devices|
      invariant trace == Effects(Pass(direction, instance, devices[..j]))
    {
      var volumeId := VolumeArg(devices[j].volumeId);
      var command := Command(direction, instance, volumeId);
      PassNext(direction, instance, devices, j);
      EffectsSnoc(Pass(direction, instance, devices[..j]), command);
      trace := trace + Emit(command);
      j := j + 1;
    }
    assert devices[..j] == devices;
  }

  /** `block_device_action(direction, instance_to_block_hash)`, with the key
      order of the dict given as `keys`. */
  method BlockDeviceAction(direction: Direction, m: InstanceMap, keys: seq<string>)
    returns (trace: seq<Effect>)
    requires IsEnumeration(keys, m)
    ensures trace == Effects(Plan(direction, m, keys))
  {
    trace := [];
    var i := 0;
    while i < |keys|
      invariant 0 <= i <= |keys|
      invariant trace == Effects(Plan(direction, m, keys[..i]))
    {
      var instance := keys[i];
      var effects := ActOnInstance(direction, instance, SortEntries(m[instance]));
      PlanNext(direction, m, keys, i);
      trace := trace + effects;
      i := i + 1;
    }
    assert keys[..i] == keys;
  }

  /** The whole script for one listing: build the inventory, then the remove
      pass, then the add pass over the same inventory and the same key order.
      A listing that does not parse stops the script before any call. */
  method Recinder(listing: string) returns (outcome: Result<seq<Effect>>)
    ensures ParseListing(listing).Failure? ==> outcome == Failure(ParseListing(listing).error)
    ensures ParseListing(listing).Success? ==>
      var m := ParseListing(listing).value;
      outcome.Success? &&
      exists keys :: IsEnumeration(keys, m) &&
        outcome.value == Effects(Plan(Remove, m, keys) + Plan(Add, m, keys))
  {
    var mapping := GetCurrentMapping(listing);
    if mapping.Failure? {
      return Failure(mapping.error);
    }
    var keys := InstanceKeys(mapping.value);
    var removed := BlockDeviceAction(Remove, mapping.value, keys);
    var added := BlockDeviceAction(Add, mapping.value, keys);
    EffectsAppend(Plan(Remove, mapping.value, keys), Plan(Add, mapping.value, keys));
    return Success(removed + added);
  }

  lemma PassNext(d: Direction, instance: string, entries: seq<Entry>, j: nat)
    requires j < |entries|
    ensures Pass(d, instance, entries[..j + 1])
            == Pass(d, instance, entries[..j]) + [Command(d, instance, VolumeArg(entries[j].volumeId))]
  {
    assert entries[..j + 1][..j] == entries[..j];
  }

  lemma PlanNext(d: Direction, m: InstanceMap, keys: seq<string>, i: nat)
    requires i < |keys| && forall k :: k in keys ==> k in m
    ensures Effects(Plan(d, m, keys[..i + 1]))
         == Effects(Plan(d, m, keys[..i])) + Effects(InstancePass(d, m, keys[i]))
  {
    assert keys[..i + 1][..i] == keys[..i];
    EffectsAppend(Plan(d, m, keys[..i]), InstancePass(d, m, keys[i]));
  }

  lemma EffectsSnoc(cmds: seq<Command>, c: Command)
    ensures Effects(cmds + [c]) == Effects(cmds) + Emit(c)
  {
    assert (cmds + [c])[..|cmds|] == cmds;
  }

  /** The effects of two command sequences run one after the other. */
  lemma {:induction false} EffectsAppend(a: seq<Command>, b: seq<Command>)
    ensures Effects(a + b) == Effects(a) + Effects(b)
    decreases |b|
  {
    if b == [] {
      assert a + b == a;
    } else {
      var init := b[..|b| - 1];
      EffectsAppend(a, init);
      assert a + b == (a + init) + [b[|b| - 1]];
      EffectsSnoc(a + init, b[|b| - 1]);
    }
  }

  /** Every command yields exactly two effects, its printed line and then its
      call, in the order of the commands. */
  lemma {:induction false} EffectsShape(cmds: seq<Command>)
    ensures |Effects(cmds)| == 2 * |cmds|
    ensures forall i :: 0 <= i < |cmds| ==>
      Effects(cmds)[2 * i] == Print(PrintedLine(cmds[i])) &&
      Effects(cmds)[2 * i + 1] == Call(Argv(cmds[i]))
    decreases |cmds|
  {
    if cmds != [] {
      EffectsShape(cmds[..|cmds| - 1]);
    }
  }

  /** `block_device_action` issues one command per entry, in the order of
      the entries, naming the instance and the unquoted volume id; the device
      path of the entry plays no part. */
  lemma {:induction false} PassCommands(d: Direction, instance: string, entries: seq<Entry>)
    ensures |Pass(d, instance, entries)| == |entries|
    ensures forall i :: 0 <= i < |entries| ==>
      Pass(d, instance, entries)[i] == Command(d, instance, VolumeArg(entries[i].volumeId))
    decreases |entries|
  {
    if entries != [] {
      var init := entries[..|entries| - 1];
      PassCommands(d, instance, init);
      assert forall i :: 0 <= i < |init| ==> init[i] == entries[i];
    }
  }

  /** Two entries that differ only in their device give the same command. */
  lemma DeviceIgnored(d: Direction, instance: string, x: Entry, y: Entry)
    requires x.volumeId == y.volumeId
    ensures Pass(d, instance, [x]) == Pass(d, instance, [y])
  {
    assert [x][..0] == [] && [y][..0] == [];
  }

  /** The add pass issues the commands of the remove pass, in the same order
      (not reversed), with only the direction changed. */
  lemma {:induction false} PlanDirections(m: InstanceMap, keys: seq<string>)
    requires forall k :: k in keys ==> k in m
    ensures |Plan(Add, m, keys)| == |Plan(Remove, m, keys)|
    ensures forall i :: 0 <= i < |Plan(Remove, m, keys)| ==>
      Plan(Remove, m, keys)[i].direction == Remove &&
      Plan(Add, m, keys)[i] == Plan(Remove, m, keys)[i].(direction := Add)
    decreases |keys|
  {
    if keys != [] {
      var init := keys[..|keys| - 1];
      var k := keys[|keys| - 1];
      PlanDirections(m, init);
      var es := SortEntries(m[k]);
      PassCommands(Remove, k, es);
      PassCommands(Add, k, es);
      var r0: seq<Command>, a0: seq<Command> := Plan(Remove, m, init), Plan(Add, m, init);
      var r1: seq<Command>, a1: seq<Command> := Pass(Remove, k, es), Pass(Add, k, es);
      forall i | 0 <= i < |r0| + |r1|
        ensures (r0 + r1)[i].direction == Remove && (a0 + a1)[i] == (r0 + r1)[i].(direction := Add)
      {
        if i >= |r0| {
          assert (r0 + r1)[i] == r1[i - |r0|] && (a0 + a1)[i] == a1[i - |a0|];
        }
      }
    }
  }

  /** What a command acts on: the instance and the volume. */
  function Target(c: Command): (string, string) {
    (c.instance, c.volume)
  }

  /** What the commands for an attachment should act on. */
  function Wanted(a: Attachment): (string, string) {
    (a.instance, VolumeArg(a.entry.volumeId))
  }

  /** The commands for one instance's entries act on those entries. */
  lemma {:induction false} PassTargets(d: Direction, instance: string, entries: seq<Entry>)
    ensures MapSeq(Target, Pass(d, instance, entries)) == MapSeq(Wanted, Tag(instance, entries))
  {
    var p, t := Pass(d, instance, entries), Tag(instance, entries);
    PassCommands(d, instance, entries);
    forall i | 0 <= i < |entries|
      ensures MapSeq(Target, p)[i] == MapSeq(Wanted, t)[i]
    {
      MapSeqAt(Target, p, i);
      MapSeqAt(Wanted, t, i);
      MapSeqAt(Attach(instance), entries, i);
    }
  }

  /** Sorting an instance's entries changes only the order of its targets. */
  lemma SortedTargets(instance: string, entries: seq<Entry>)
    ensures multiset(MapSeq(Wanted, Tag(instance, SortEntries(entries))))
         == multiset(MapSeq(Wanted, Tag(instance, entries)))
  {
    var sorted := SortEntries(entries);
    SortEntriesSorted(entries);
    MapPermutation(Attach(instance), sorted, entries);
    MapPermutation(Wanted, Tag(instance, sorted), Tag(instance, entries));
  }

  /** A pass acts on exactly the entries of the map, each once. */
  lemma {:induction false} PlanTargets(d: Direction, m: InstanceMap, keys: seq<string>)
    requires forall k :: k in keys ==> k in m
    ensures multiset(MapSeq(Target, Plan(d, m, keys))) == multiset(MapSeq(Wanted, Flatten(m, keys)))
    decreases |keys|
  {
    if keys != [] {
      var init := keys[..|keys| - 1];
      var k := keys[|keys| - 1];
      PlanTargets(d, m, init);
      MapSeqConcat(Target, Plan(d, m, init), InstancePass(d, m, k));
      MapSeqConcat(Wanted, Flatten(m, init), Tag(k, m[k]));
      PassTargets(d, k, SortEntries(m[k]));
      SortedTargets(k, m[k]);
    }
  }

  /** From listing to calls: each pass issues one command per accepted line
      of the listing, and together they act on exactly the instance and the
      unquoted volume id of those lines, each as often as it was listed. */
  lemma ListingCommands(listing: string, atts: seq<Attachment>, d: Direction, keys: seq<string>)
    requires Collect(Split(listing, '\n')) == Success(atts)
    requires IsEnumeration(keys, Group(atts))
    ensures |Plan(d, Group(atts), keys)| == |Accepted(Split(listing, '\n'))|
    ensures multiset(MapSeq(Target, Plan(d, Group(atts), keys))) == multiset(MapSeq(Wanted, atts))
  {
    var plan := Plan(d, Group(atts), keys);
    CollectAccepted(Split(listing, '\n'), atts);
    PlanTargets(d, Group(atts), keys);
    GroupFlatten(atts, keys);
    MapPermutation(Wanted, Flatten(Group(atts), keys), atts);
    assert |multiset(MapSeq(Target, plan))| == |MapSeq(Target, plan)|;
    assert |multiset(MapSeq(Wanted, atts))| == |MapSeq(Wanted, atts)|;
  }

  /** A listing in which no line is an attached volume parses to the empty
      map, and the script then issues no command. */
  lemma EmptyInventory(listing: string)
    requires Accepted(Split(listing, '\n')) == []
    ensures ParseListing(listing) == Success(map[])
    ensures forall keys :: IsEnumeration(keys, map[]) ==>
      Effects(Plan(Remove, map[], keys) + Plan(Add, map[], keys)) == []
  {
    CollectNoneAccepted(Split(listing, '\n'));
    forall keys | IsEnumeration(keys, map[])
      ensures Effects(Plan(Remove, map[], keys) + Plan(Add, map[], keys)) == []
    {
      assert keys == [];
    }
  }

  /** Two entries of one instance listed out of order are acted on in
      ascending order. */
  lemma SwappedPair(d: Direction, instance: string, x: Entry, y: Entry)
    requires !EntryLe(x, y)
    ensures Plan(d, map[instance := [x, y]], [instance])
         == [Command(d, instance, VolumeArg(y.volumeId)), Command(d, instance, VolumeArg(x.volumeId))]
  {
    assert [x, y][1..] == [y] && [y][1..] == [];
    assert SortEntries([y]) == [y];
    assert Insert(x, [y]) == [y] + Insert(x, []);
    assert SortEntries([x, y]) == [y, x];
    PassCommands(d, instance, [y, x]);
    var m := map[instance := [x, y]];
    assert [instance][..0] == [];
    assert Plan(d, m, [instance]) == Plan(d, m, []) + InstancePass(d, m, instance);
  }

  lemma VdcAfterVdb()
    ensures !EntryLe(Entry("/dev/vdc", "\"v2\""), Entry("/dev/vdb", "\"v1\""))
  {
    var c, b := "/dev/vdc", "/dev/vdb";
    assert c[..7] == b[..7] && c[7] > b[7];
    StrLeAfterCommonPrefix(c, b, 7);
  }

  /** An instance with `/dev/vdc` listed before `/dev/vdb` is detached
      `/dev/vdb` first, then `/dev/vdc`, and reattached in that same order. */
  lemma DevicesInOrder()
    ensures var m: InstanceMap := map["web" := [Entry("/dev/vdc", "\"v2\""), Entry("/dev/vdb", "\"v1\"")]];
      Plan(Remove, m, ["web"]) + Plan(Add, m, ["web"])
      == [Command(Remove, "web", "v1"), Command(Remove, "web", "v2"),
          Command(Add, "web", "v1"), Command(Add, "web", "v2")]
  {
    var vdc, vdb := Entry("/dev/vdc", "\"v2\""), Entry("/dev/vdb", "\"v1\"");
    VdcAfterVdb();
    SwappedPair(Remove, "web", vdc, vdb);
    SwappedPair(Add, "web", vdc, vdb);
    ScenarioIds();
  }

  lemma ScenarioIds()
    ensures VolumeArg("\"v1\"") == "v1" && VolumeArg("\"v2\"") == "v2"
  {
    VolumeArgUnquotes("v1");
    VolumeArgUnquotes("v2");
    assert "\"" + "v1" + "\"" == "\"v1\"" && "\"" + "v2" + "\"" == "\"v2\"";
  }
}
