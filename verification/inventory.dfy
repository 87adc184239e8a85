/** The attachment inventory of recinder.py (`get_current_mapping`): the text
    of `openstack volume list -f csv` becomes a map from each instance to the
    list of single-entry `{device: volume_id}` records of its non-root
    volumes, in the order the listing gives them. */
module Inventory {
  import opened PyStrings
  import opened Sequences

  /** One single-entry `{device: volume_id}` dict. The volume id is the raw
      first CSV field, surrounding quotes included. */
  datatype Entry = Entry(device: string, volumeId: string)

  /** What one accepted listing line yields: the owning instance and its entry. */
  datatype Attachment = Attachment(instance: string, entry: Entry)

  /** Why a line that passed the filter could not be read. The script raises
      `ValueError` when unpacking into five names fails and `IndexError` when
      the quote or a token is missing. */
  datatype ParseError =
    | FieldCount(found: nat)   // the line did not split into exactly five fields
    | MissingQuote             // the last field has no `"`
    | MissingToken(index: nat) // the quoted text has no token at this index

  datatype Result<+T> = Success(value: T) | Failure(error: ParseError)

  /** `instance_to_block_hash`. */
  type InstanceMap = map<string, seq<Entry>>

  /** The three substring tests a line must pass before it is parsed. Note the
      trailing space in the root-device test, and that all three look at the
      whole line, not only at its last field. */
  predicate Accepts(line: string) {
    Contains(line, "Attached to") && !Contains(line, "/dev/vda ") && Contains(line, "/dev/")
  }

  /** The attachment field read as the script does: the text after its
      first quote (up to the next quote, if there is one), stripped and split
      on single spaces; token 2 is the instance and token 4 the device. A
      missing quote or a missing token is an error. */
  function ReadAttachedTo(field: string): (r: Result<(string, string)>)
    ensures Count(field, '"') == 0 ==> r == Failure(MissingQuote)
    ensures r.Success? ==> Count(field, '"') > 0
    ensures r.Success? ==> ' ' !in r.value.0 && ' ' !in r.value.1
  {
    var quoted := Split(field, '"');
    if |quoted| < 2 then Failure(MissingQuote)
    else
      var attachment := Split(Strip(quoted[1]), ' ');
      if |attachment| <= 2 then Failure(MissingToken(2))
      else if |attachment| <= 4 then Failure(MissingToken(4))
      else Success((attachment[2], attachment[4]))
  }

  /** One accepted line: exactly five comma-separated fields, the first the
      volume id and the last the attachment field. */
  function ParseLine(line: string): (r: Result<Attachment>)
    ensures Count(line, ',') != 4 <==> r == Failure(FieldCount(Count(line, ',') + 1))
    ensures Count(line, ',') == 4 && Count(line, '"') == 0 ==> r == Failure(MissingQuote)
    ensures r.Success? ==> Count(line, ',') == 4 && Count(line, '"') > 0
    ensures r.Success? ==> ',' !in r.value.entry.volumeId
    ensures r.Success? ==> ' ' !in r.value.instance && ' ' !in r.value.entry.device
  {
    var fields := Split(line, ',');
    if |fields| != 5 then Failure(FieldCount(|fields|))
    else
      assert Count(fields[4], '"') > 0 ==> Count(line, '"') > 0 by {
        CountZero(fields[4], '"');
        if '"' in fields[4] {
          JoinHasPieces(fields, ',', 4, '"');
        }
        CountZero(line, '"');
      }
      match ReadAttachedTo(fields[4])
      case Failure(e) => Failure(e)
      case Success(at) => Success(Attachment(at.0, Entry(at.1, fields[0])))
  }

  /** The quoted text decides the outcome by its number of spaces: fewer
      than two leaves no token 2, fewer than four no token 4, and otherwise
      the instance and the device are tokens 2 and 4. */
  lemma ReadAttachedToTokens(field: string)
    requires Count(field, '"') > 0
    ensures var words := Split(Strip(Split(field, '"')[1]), ' ');
      var spaces := Count(Strip(Split(field, '"')[1]), ' ');
      var r := ReadAttachedTo(field);
      (spaces < 2 <==> r == Failure(MissingToken(2))) &&
      (2 <= spaces < 4 <==> r == Failure(MissingToken(4))) &&
      (spaces >= 4 <==> r.Success?) &&
      (r.Success? ==> |words| >= 5 && r.value == (words[2], words[4]))
  {
    var quoted := Split(field, '"');
    CountZero(field, '"');
    assert |quoted| >= 2;
  }

  /** A line of five fields fails for a missing quote exactly when its last
      field has none, fails for a missing token exactly when the quoted text
      of its last field has fewer than four spaces, and parses otherwise; on
      success the volume id is field 0 and the instance and device are read
      from field 4. */
  lemma ParseLineFields(line: string)
    requires Count(line, ',') == 4
    ensures var fields := Split(line, ',');
      var r := ParseLine(line);
      (Count(fields[4], '"') == 0 <==> r == Failure(MissingQuote)) &&
      ((Count(fields[4], '"') > 0 && Count(Strip(Split(fields[4], '"')[1]), ' ') < 4) <==>
       (r.Failure? && r.error.MissingToken?)) &&
      ((Count(fields[4], '"') > 0 && Count(Strip(Split(fields[4], '"')[1]), ' ') >= 4) <==>
       r.Success?) &&
      (r.Success? ==>
        r.value.entry.volumeId == fields[0] &&
        ReadAttachedTo(fields[4]) == Success((r.value.instance, r.value.entry.device)))
  {
    var fields := Split(line, ',');
    if Count(fields[4], '"') > 0 {
      ReadAttachedToTokens(fields[4]);
    }
  }

  /** A listing row as the volume service prints it for a volume attached to
      `instance` at `device`: five comma-separated fields, the last one the
      quoted attachment text. */
  function Row(volumeId: string, name: string, status: string, size: string,
               instance: string, device: string): string
  {
    Join([volumeId, name, status, size, AttachedField(instance, device)], ',')
  }

  /** The last field of such a row: the attachment text in quotes, with the
      trailing space the volume service leaves after the device. */
  function AttachedField(instance: string, device: string): string {
    "\"" + (AttachedText(instance, device) + " ") + "\""
  }

  /** `Attached to <instance> on <device>`. */
  function AttachedText(instance: string, device: string): string {
    Join(["Attached", "to", instance, "on", device], ' ')
  }

  /** Reading a well-formed row recovers the instance as token 2 and the
      device as token 4 of the quoted text, and the raw first field as the
      volume id. */
  lemma ParseRow(volumeId: string, name: string, status: string, size: string,
                 instance: string, device: string)
    requires ',' !in volumeId && ',' !in name && ',' !in status && ',' !in size
    requires ',' !in instance && '"' !in instance && ' ' !in instance
    requires ',' !in device && '"' !in device && ' ' !in device
    requires device != [] && !IsSpace(device[|device| - 1])
    ensures ParseLine(Row(volumeId, name, status, size, instance, device))
            == Success(Attachment(instance, Entry(device, volumeId)))
  {
    var last := AttachedField(instance, device);
    var fields := [volumeId, name, status, size, last];
    assert ',' !in last by {
      JoinAvoids(["Attached", "to", instance, "on", device], ' ', ',');
    }
    SplitJoin(fields, ',');
    ReadRowAttachment(instance, device);
  }

  /** A row for a volume attached as the root device `/dev/vda` fails the
      filter, whatever the other fields hold. */
  lemma RootRowRejected(volumeId: string, name: string, status: string, size: string, instance: string)
    ensures !Accepts(Row(volumeId, name, status, size, instance, "/dev/vda"))
  {
    var root := "/dev/vda";
    var text := AttachedText(instance, root);
    JoinEndsWith(["Attached", "to", instance, "on", root], ' ');
    var at := |text| - |root|;
    assert OccursAt(text + " ", root + " ", at) by {
      assert (text + " ")[at..at + |root| + 1] == text[at..at + |root|] + " ";
    }
    OccursSuffix("\"", text + " ", root + " ", at);
    OccursPrefix("\"" + (text + " "), "\"", root + " ", 1 + at);
    assert root + " " == "/dev/vda ";
    assert OccursAt(AttachedField(instance, root), "/dev/vda ", 1 + at);
    ContainsOccurs(AttachedField(instance, root), "/dev/vda ");
    JoinContains([volumeId, name, status, size, AttachedField(instance, root)], ',', 4, "/dev/vda ");
  }

  /** The quoted attachment text of a row names its instance and device. */
  lemma ReadRowAttachment(instance: string, device: string)
    requires '"' !in instance && ' ' !in instance
    requires '"' !in device && ' ' !in device
    requires device != [] && !IsSpace(device[|device| - 1])
    ensures ReadAttachedTo(AttachedField(instance, device)) == Success((instance, device))
  {
    var tokens := ["Attached", "to", instance, "on", device];
    var text := AttachedText(instance, device);
    SplitJoin(tokens, ' ');
    JoinAvoids(tokens, ' ', '"');
    JoinStartsWith(tokens, ' ');
    JoinEndsWith(tokens, ' ');
    assert text[0] == "Attached"[0];
    assert text[|text| - 1] == device[|device| - 1];
    ReadQuoted(text, tokens);
  }

  /** A quoted text with one trailing space is read token by token. */
  lemma ReadQuoted(text: string, tokens: seq<string>)
    requires '"' !in text && text != [] && !IsSpace(text[0]) && !IsSpace(text[|text| - 1])
    requires Split(text, ' ') == tokens && |tokens| >= 5
    ensures ReadAttachedTo("\"" + (text + " ") + "\"") == Success((tokens[2], tokens[4]))
  {
    assert '"' !in text + " ";
    QuotedText(text + " ");
    StripText(text);
  }

  lemma QuotedText(inner: string)
    requires '"' !in inner
    ensures Split("\"" + inner + "\"", '"') == ["", inner, ""]
  {
    assert "\"" + inner + "\"" == [] + ['"'] + (inner + ['"'] + []);
    SplitNoSep([], '"');
    SplitConcat(inner, '"', []);
    SplitConcat([], '"', inner + ['"'] + []);
  }

  lemma StripText(text: string)
    requires text != [] && !IsSpace(text[0]) && !IsSpace(text[|text| - 1])
    ensures Strip(text + " ") == text
  {
    assert TrimLeft(text + " ") == text + " ";
    assert (text + " ")[..|text + " "| - 1] == text;
    assert TrimRight(text + " ") == TrimRight(text);
  }

  /** The lines that pass the filter, in order. */
  function Accepted(lines: seq<string>): seq<string> {
    if lines == [] then []
    else Accepted(lines[..|lines| - 1]) + (if Accepts(lines[|lines| - 1]) then [lines[|lines| - 1]] else [])
  }

  /** The attachments of the accepted lines, in order, or the error of the
      first accepted line that does not parse: the script stops at the first
      exception. Lines that fail the filter contribute nothing. */
  function Collect(lines: seq<string>): Result<seq<Attachment>>
  {
    if lines == [] then Success([])
    else
      match Collect(lines[..|lines| - 1])
      case Failure(e) => Failure(e)
      case Success(atts) =>
        var line := lines[|lines| - 1];
        if !Accepts(line) then Success(atts)
        else
          match ParseLine(line)
          case Failure(e) => Failure(e)
          case Success(a) => Success(atts + [a])
  }

  /** Appending one attachment to the map: a new list for an instance seen
      for the first time, otherwise one more entry at the end of its list. */
  function Add(m: InstanceMap, a: Attachment): InstanceMap {
    if a.instance in m then m[a.instance := m[a.instance] + [a.entry]]
    else m[a.instance := [a.entry]]
  }

  /** The map built from a sequence of attachments, in order. */
  function Group(atts: seq<Attachment>): InstanceMap {
    if atts == [] then map[] else Add(Group(atts[..|atts| - 1]), atts[|atts| - 1])
  }

  /** What `get_current_mapping` returns for a listing, or the error it raises. */
  function ParseListing(listing: string): Result<InstanceMap> {
    match Collect(Split(listing, '\n'))
    case Failure(e) => Failure(e)
    case Success(atts) => Success(Group(atts))
  }

  /** `get_current_mapping` with the listing as input: one pass over the
      lines, creating or extending the instance's list in place. */
  method GetCurrentMapping(listing: string) returns (r: Result<InstanceMap>)
    ensures r == ParseListing(listing)
  {
    var lines := Split(listing, '\n');
    var instanceToBlockHash: InstanceMap := map[];
    ghost var atts: seq<Attachment> := [];
    var i := 0;
    while i < |lines|
      invariant 0 <= i <= |lines|
      invariant Collect(lines[..i]) == Success(atts)
      invariant instanceToBlockHash == Group(atts)
    {
      var line := lines[i];
      if Contains(line, "Attached to") && !Contains(line, "/dev/vda ") {
        if Contains(line, "/dev/") {
          var parsed := ParseLine(line);
          if parsed.Failure? {
            CollectFails(lines, i, atts);
            return Failure(parsed.error);
          }
          var instance, entry := parsed.value.instance, parsed.value.entry;
          if instance in instanceToBlockHash {
            instanceToBlockHash := instanceToBlockHash[instance := instanceToBlockHash[instance] + [entry]];
          } else {
            instanceToBlockHash := instanceToBlockHash[instance := [entry]];
          }
          CollectAppends(lines, i, atts);
          GroupNext(atts, parsed.value);
          atts := atts + [parsed.value];
        } else {
          CollectSkips(lines, i, atts);
        }
      } else {
        CollectSkips(lines, i, atts);
      }
      i := i + 1;
    }
    assert lines[..i] == lines;
    return Success(instanceToBlockHash);
  }

  /** A line the filter rejects leaves the result unchanged. */
  lemma CollectSkips(lines: seq<string>, i: nat, atts: seq<Attachment>)
    requires i < |lines| && Collect(lines[..i]) == Success(atts) && !Accepts(lines[i])
    ensures Collect(lines[..i + 1]) == Success(atts)
  {
    assert lines[..i + 1][..i] == lines[..i];
  }

  /** An accepted line that parses appends its attachment. */
  lemma CollectAppends(lines: seq<string>, i: nat, atts: seq<Attachment>)
    requires i < |lines| && Collect(lines[..i]) == Success(atts)
    requires Accepts(lines[i]) && ParseLine(lines[i]).Success?
    ensures Collect(lines[..i + 1]) == Success(atts + [ParseLine(lines[i]).value])
  {
    var next := lines[..i + 1];
    assert next[..|next| - 1] == lines[..i] && next[|next| - 1] == lines[i];
  }

  /** An accepted line that does not parse fails the whole listing with its
      error. */
  lemma CollectFails(lines: seq<string>, i: nat, atts: seq<Attachment>)
    requires i < |lines| && Collect(lines[..i]) == Success(atts)
    requires Accepts(lines[i]) && ParseLine(lines[i]).Failure?
    ensures Collect(lines) == Failure(ParseLine(lines[i]).error)
  {
    assert lines[..i + 1][..i] == lines[..i];
    CollectStopsAtError(lines, i + 1);
  }

  lemma GroupNext(atts: seq<Attachment>, a: Attachment)
    ensures Group(atts + [a]) == Add(Group(atts), a)
  {
    assert (atts + [a])[..|atts|] == atts;
  }

  /** Once a prefix of the lines fails, the whole listing fails with the same
      error: no later line is looked at. */
  lemma {:induction false} CollectStopsAtError(lines: seq<string>, n: nat)
    requires n <= |lines| && Collect(lines[..n]).Failure?
    ensures Collect(lines) == Collect(lines[..n])
    decreases |lines|
  {
    if n < |lines| {
      var init := lines[..|lines| - 1];
      assert init[..n] == lines[..n];
      CollectStopsAtError(init, n);
    } else {
      assert lines[..n] == lines;
    }
  }
  /** Every accepted line contributes exactly one attachment, in order,
      namely its own parse; every other line contributes nothing. */
  lemma {:induction false} CollectAccepted(lines: seq<string>, atts: seq<Attachment>)
    requires Collect(lines) == Success(atts)
    ensures |atts| == |Accepted(lines)|
    ensures forall i :: 0 <= i < |atts| ==> ParseLine(Accepted(lines)[i]) == Success(atts[i])
    decreases |lines|
  {
    if lines != [] {
      var init := lines[..|lines| - 1];
      var pre :| Collect(init) == Success(pre);
      CollectAccepted(init, pre);
    }
  }

  /** The listing parses exactly when every line that passes the filter parses. */
  lemma {:induction false} CollectSucceeds(lines: seq<string>)
    ensures Collect(lines).Success? <==>
            forall i :: 0 <= i < |lines| && Accepts(lines[i]) ==> ParseLine(lines[i]).Success?
    decreases |lines|
  {
    if lines != [] {
      var init := lines[..|lines| - 1];
      CollectSucceeds(init);
      assert forall i :: 0 <= i < |init| ==> init[i] == lines[i];
    }
  }

  /** A listing in which no line passes the filter yields no attachments. */
  lemma {:induction false} CollectNoneAccepted(lines: seq<string>)
    requires Accepted(lines) == []
    ensures Collect(lines) == Success([])
    decreases |lines|
  {
    if lines != [] {
      var init := lines[..|lines| - 1];
      assert |Accepted(init)| <= |Accepted(lines)|;
      CollectNoneAccepted(init);
    }
  }

  /** The error reported is that of the first accepted line that fails. */
  lemma {:induction false} CollectFirstError(lines: seq<string>, i: nat)
    requires i < |lines| && Accepts(lines[i]) && ParseLine(lines[i]).Failure?
    requires forall j :: 0 <= j < i && Accepts(lines[j]) ==> ParseLine(lines[j]).Success?
    ensures Collect(lines) == Failure(ParseLine(lines[i]).error)
  {
    var prefix := lines[..i];
    CollectSucceeds(prefix);
    assert forall j :: 0 <= j < |prefix| ==> prefix[j] == lines[j];
    CollectFails(lines, i, Collect(prefix).value);
  }

  /** The entries recorded for `instance`, in order. */
  function Select(atts: seq<Attachment>, instance: string): seq<Entry> {
    if atts == [] then []
    else
      var a := atts[|atts| - 1];
      Select(atts[..|atts| - 1], instance) + (if a.instance == instance then [a.entry] else [])
  }

  /** The instances named by some attachment. */
  function Instances(atts: seq<Attachment>): set<string> {
    set i | 0 <= i < |atts| :: atts[i].instance
  }

  /** Grouping: an instance is a key exactly when some accepted line names it;
      its list is never empty and holds the entries of exactly those lines, each
      once, in input order. */
  lemma {:induction false} GroupSelect(atts: seq<Attachment>, instance: string)
    ensures instance in Group(atts) <==> Select(atts, instance) != []
    ensures instance in Group(atts) ==> Group(atts)[instance] == Select(atts, instance)
    decreases |atts|
  {
    if atts != [] {
      GroupSelect(atts[..|atts| - 1], instance);
    }
  }

  lemma {:induction false} GroupKeys(atts: seq<Attachment>)
    ensures Group(atts).Keys == Instances(atts)
    decreases |atts|
  {
    if atts != [] {
      var init := atts[..|atts| - 1];
      GroupKeys(init);
      assert Instances(atts) == Instances(init) + {atts[|atts| - 1].instance} by {
        forall k | k in Instances(atts) ensures k in Instances(init) + {atts[|atts| - 1].instance} {
          var i :| 0 <= i < |atts| && atts[i].instance == k;
          if i < |init| { assert init[i] == atts[i]; }
        }
        forall k | k in Instances(init) ensures k in Instances(atts) {
          var i :| 0 <= i < |init| && init[i].instance == k;
          assert atts[i] == init[i];
        }
      }
    }
  }

  /** `keys` lists each key of `m` exactly once: an order of `m.keys()`. */
  predicate IsEnumeration(keys: seq<string>, m: InstanceMap) {
    (forall i, j :: 0 <= i < j < |keys| ==> keys[i] != keys[j]) &&
    (forall k :: k in keys ==> k in m) &&
    (forall k :: k in m ==> k in keys)
  }

  /** Pairing an entry with the instance it belongs to. */
  function Attach(instance: string): Entry -> Attachment {
    (e: Entry) => Attachment(instance, e)
  }

  /** The entries of one instance, each paired with it again. */
  function Tag(instance: string, entries: seq<Entry>): seq<Attachment> {
    MapSeq(Attach(instance), entries)
  }

  /** All the map's entries, instance by instance in the order of `keys`. */
  function Flatten(m: InstanceMap, keys: seq<string>): seq<Attachment>
    requires forall k :: k in keys ==> k in m
  {
    if keys == [] then []
    else Flatten(m, keys[..|keys| - 1]) + Tag(keys[|keys| - 1], m[keys[|keys| - 1]])
  }

  /** The attachments whose instance is in `instances`, in order. */
  function FilterIn(atts: seq<Attachment>, instances: set<string>): seq<Attachment> {
    if atts == [] then []
    else
      var a := atts[|atts| - 1];
      FilterIn(atts[..|atts| - 1], instances) + (if a.instance in instances then [a] else [])
  }

  lemma {:induction false} TagSelect(atts: seq<Attachment>, instance: string)
    ensures Tag(instance, Select(atts, instance)) == FilterIn(atts, {instance})
    decreases |atts|
  {
    if atts != [] {
      var init := atts[..|atts| - 1];
      TagSelect(init, instance);
      var a := atts[|atts| - 1];
      var extra := if a.instance == instance then [a.entry] else [];
      MapSeqConcat(Attach(instance), Select(init, instance), extra);
    }
  }

  lemma {:induction false} FilterInUnion(atts: seq<Attachment>, instances: set<string>, instance: string)
    requires instance !in instances
    ensures multiset(FilterIn(atts, instances + {instance}))
            == multiset(FilterIn(atts, instances)) + multiset(FilterIn(atts, {instance}))
    decreases |atts|
  {
    if atts != [] {
      FilterInUnion(atts[..|atts| - 1], instances, instance);
    }
  }

  lemma {:induction false} FilterInAll(atts: seq<Attachment>, instances: set<string>)
    requires Instances(atts) <= instances
    ensures FilterIn(atts, instances) == atts
    decreases |atts|
  {
    if atts != [] {
      var init := atts[..|atts| - 1];
      assert Instances(init) <= Instances(atts) by {
        forall k | k in Instances(init) ensures k in Instances(atts) {
          var i :| 0 <= i < |init| && init[i].instance == k;
          assert atts[i] == init[i];
        }
      }
      FilterInAll(init, instances);
      assert atts[|atts| - 1].instance in Instances(atts);
    }
  }

  lemma {:induction false} FlattenGroupPrefix(atts: seq<Attachment>, keys: seq<string>)
    requires forall i, j :: 0 <= i < j < |keys| ==> keys[i] != keys[j]
    requires forall k :: k in keys ==> k in Group(atts)
    ensures multiset(Flatten(Group(atts), keys)) == multiset(FilterIn(atts, set k | k in keys))
    decreases |keys|
  {
    if keys == [] {
      assert (set k | k in keys) == {};
      FilterInNone(atts);
    } else {
      var init := keys[..|keys| - 1];
      var k := keys[|keys| - 1];
      FlattenGroupPrefix(atts, init);
      GroupSelect(atts, k);
      TagSelect(atts, k);
      assert (set x | x in keys) == (set x | x in init) + {k};
      FilterInUnion(atts, (set x | x in init), k);
    }
  }

  lemma {:induction false} FilterInNone(atts: seq<Attachment>)
    ensures FilterIn(atts, {}) == []
    decreases |atts|
  {
    if atts != [] {
      FilterInNone(atts[..|atts| - 1]);
    }
  }

  /** Nothing is lost or duplicated by grouping: walking the map in any key
      order gives back the accepted attachments, so the number of entries is
      the number of accepted lines. */
  lemma GroupFlatten(atts: seq<Attachment>, keys: seq<string>)
    requires IsEnumeration(keys, Group(atts))
    ensures multiset(Flatten(Group(atts), keys)) == multiset(atts)
    ensures |Flatten(Group(atts), keys)| == |atts|
  {
    FlattenGroupPrefix(atts, keys);
    GroupKeys(atts);
    FilterInAll(atts, (set k | k in keys));
    assert |multiset(Flatten(Group(atts), keys))| == |multiset(atts)|;
  }
}
