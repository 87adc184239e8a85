# recinder — detach and reattach Cinder volumes in order

`recinder.py` is a one-shot maintenance script for an OpenStack project. It
asks the volume service for the CSV listing of the user's volumes. From that
listing it builds `instance_to_block_hash`, a map from each Nova instance to
the `{device: volume_id}` records of its non-root volumes. It then runs two
passes over that map: first it detaches every volume, then it reattaches
every volume. In both passes an instance's volumes are taken in ascending
device-path order. The intent is that the guest sees the same device letters
again after reattachment, provided the control plane assigns devices in
attach order; the script itself does not check this.

The model has five modules:

- `Sequences` (`sequences.dfy`) defines mapping a function over a sequence.
  It proves that mapping a permutation gives a permutation. `Inventory` uses
  it to pair entries with their instance. `Driver` uses it to compare the
  volumes a pass acts on, as multisets.
- `PyStrings` (`pystrings.dfy`) covers the Python 2 `str` operations the
  script uses, over `seq<char>`. These are `split` on one character (empty
  pieces kept), the `in` substring test, `strip()` with Python 2's
  whitespace set, and the lexicographic `<=`. It also defines `join`, which
  the script never calls. `join` is what `split` inverts, and it describes
  the printed line.
- `Inventory` (`inventory.dfy`) models `get_current_mapping`. It has:
  - the three-part line filter;
  - the per-line parse, with its three failure modes:
    - unpacking into five names fails (`ValueError`);
    - the last field has no `"` (`IndexError`);
    - the quoted text has no token 2 or no token 4 (`IndexError`);
  - the fold of accepted lines into the map, as the function pair
    `Collect`/`Group`;
  - the imperative loop `GetCurrentMapping`, proved equal to them.
- `Ordering` (`ordering.dfy`) models `sorted` over the single-entry dicts.
  Python 2 compares such dicts by key and then by value, so entries are
  ordered by device path, with ties broken by the raw volume id.
- `Driver` (`driver.dfy`) models `block_device_action` and the top-level
  sequence. It has two nested loops: `BlockDeviceAction` with its inner loop
  `ActOnInstance`. Each `print` and each `subprocess.call` is recorded as an
  `Effect` in a trace. `Recinder` builds the map once, then runs the remove
  pass and the add pass over the same map and the same key order.

The order of a dict's keys is unspecified. `InstanceKeys` chooses some
enumeration of the keys, once, and both passes receive it. For an unmodified
dict, Python 2 gives the same `keys()` order each time it is asked.

Three details of the code shape what the model states:

- Root-device filter. A line is skipped when the whole line contains
  `/dev/vda ` (with the trailing space), not only when its attachment field
  does. This is how the script leaves out the root disk that its header
  comment (recinder.py:14-18) calls "sda". Only a root disk at `/dev/vda`
  is skipped: a root volume attached at `/dev/sda` passes the filter and
  is detached like any other. `RootRowRejected` shows that a `/dev/vda`
  row, as the volume service prints it, is always skipped.
- Sort order. Each instance's records are a list kept in listing order and
  sorted only when a pass reads it. Python 2 compares two single-entry dicts
  by key and then by value, so records with equal device paths are ordered
  by their raw volume ids.
- Volume id. The id passed to the CLI is `volume_id[1:-1]`: the first and
  last characters are dropped, and ids shorter than two characters give the
  empty string.

## Model

| member | source | states |
|---|---|---|
| `PyStrings.Split` | recinder.py:26 | `split` on one character yields one more piece than there are separators, no piece contains the separator, and joining the pieces gives the input back |
| `PyStrings.SplitJoin` | recinder.py:29 | `split` inverts `join` on separator-free pieces, so a line of five comma-free fields splits back into exactly those fields |
| `PyStrings.ContainsOccurs` | recinder.py:27-28 | the `in` test holds exactly when the substring occurs at some index of the line |
| `PyStrings.Strip` | recinder.py:30 | `strip()` returns a slice of its input flanked only by whitespace, and that slice neither starts nor ends with whitespace |
| `PyStrings.StrLeTotal` | recinder.py:41 | any two strings compare under Python 2's `<=` |
| `PyStrings.StrLeAntisymmetric` | recinder.py:41 | two strings that are each `<=` the other are equal |
| `PyStrings.StrLeTransitive` | recinder.py:41 | string `<=` is transitive |
| `PyStrings.StrLeAfterCommonPrefix` | recinder.py:41 | after a common prefix, the first differing character decides the comparison |
| `Inventory.ReadAttachedTo` | recinder.py:30-32 | an attachment field with no quote fails with `MissingQuote`; success needs a quote and yields an instance and a device without spaces |
| `Inventory.ParseLine` | recinder.py:29-32 | a line whose comma count is not 4 fails with the field count it has, and only such a line does; four commas and no quote gives `MissingQuote`; success yields a comma-free volume id and space-free instance and device (`ParseLineFields` states each outcome of a five-field line) |
| `Inventory.ReadAttachedToTokens` | recinder.py:30-32 | for a field with a quote: fewer than two spaces in the stripped quoted text is a missing token 2, two or three is a missing token 4, four or more is success, and success yields tokens 2 and 4 as instance and device |
| `Inventory.ParseLineFields` | recinder.py:29-32 | a five-field line fails with `MissingQuote` exactly when its last field has no quote, fails for a missing token exactly when that field has a quote and fewer than four spaces in its stripped quoted text, and parses in every other case; on success the volume id is field 0 and the instance and device are what field 4 reads as |
| `Inventory.ParseRow` | recinder.py:29-32 | parsing a row as the volume service prints it recovers its instance (token 2), its device (token 4) and its raw first field as the volume id |
| `Inventory.RootRowRejected` | recinder.py:27 | a row for a volume attached at `/dev/vda` never passes the filter |
| `Inventory.GetCurrentMapping` | recinder.py:21-37 | the imperative loop returns exactly the map `Group` builds from the accepted lines, or the error of the first accepted line that fails to parse |
| `Inventory.CollectFails` | recinder.py:29-32 | the first accepted line that does not parse (every earlier line parsed) fails the whole listing with its own error |
| `Inventory.CollectStopsAtError` | recinder.py:29-32 | once a line raises, no later line changes the outcome |
| `Inventory.CollectAccepted` | recinder.py:26-32 | on success there is exactly one attachment per accepted line, in order, each the parse of that line |
| `Inventory.CollectSucceeds` | recinder.py:26-32 | the listing parses if and only if every line that passes the filter parses |
| `Inventory.CollectFirstError` | recinder.py:26-32 | the error reported is that of the first accepted line that fails |
| `Inventory.CollectNoneAccepted` | recinder.py:25-37 | a listing with no accepted line yields no attachments |
| `Inventory.GroupSelect` | recinder.py:33-36 | an instance is a key exactly when some attachment names it, and its list holds that instance's entries in listing order (so every list is non-empty) |
| `Inventory.GroupKeys` | recinder.py:33-36 | the map's keys are exactly the instances named by the attachments |
| `Inventory.GroupFlatten` | recinder.py:33-36 | reading the map back instance by instance, in any key order, gives every attachment exactly once |
| `Ordering.EntryLeTotal` | recinder.py:41 | any two `{device: volume_id}` entries are ordered one way or the other |
| `Ordering.EntryLeAntisymmetric` | recinder.py:41 | entries ordered both ways are equal |
| `Ordering.EntryLeTransitive` | recinder.py:41 | entry order is transitive |
| `Ordering.InsertSorted` | recinder.py:41 | inserting into an ascending list keeps it ascending and adds exactly that entry |
| `Ordering.SortEntriesSorted` | recinder.py:41 | `sorted` yields the entries ascending and as a permutation of the input |
| `Ordering.SortedUnique` | recinder.py:41 | two ascending permutations of the same entries are equal, so every correct sort gives the same order |
| `Ordering.SortIgnoresListingOrder` | recinder.py:41 | the processing order of an instance depends only on its entries, not on the order in which the listing gave them |
| `Driver.VolumeArg` | recinder.py:42 | `[1:-1]` removes exactly the first and last characters, and gives the empty string for ids shorter than two |
| `Driver.VolumeArgUnquotes` | recinder.py:42 | a quoted id is passed on without its quotes |
| `Driver.PrintedLineIsCall` | recinder.py:44-45 | the printed line is the call's argument vector joined by spaces, and that vector names the direction, instance and volume |
| `Driver.InstanceKeys` | recinder.py:40 | the keys are listed once each, and nothing else is listed |
| `Driver.ActOnInstance` | recinder.py:41-45 | the inner loop emits, for each entry in the order given, its printed line and then its call |
| `Driver.BlockDeviceAction` | recinder.py:39-45 | one pass emits the effects of the commands of every instance in key order, each instance's entries sorted |
| `Driver.Recinder` | recinder.py:47-49 | a listing that fails to parse stops the script before any call; otherwise the trace is the whole remove pass followed by the whole add pass, over one key order |
| `Driver.EffectsAppend` | recinder.py:47-49 | the trace of two passes is the first pass's trace followed by the second's |
| `Driver.EffectsShape` | recinder.py:44-45 | each command contributes exactly two effects, its printed line then its call, in command order |
| `Driver.PassCommands` | recinder.py:41-45 | an instance's commands are one per entry, in entry order, each naming the instance and the entry's unquoted volume id |
| `Driver.DeviceIgnored` | recinder.py:42-45 | entries that differ only in their device give the same command: the device path is never passed |
| `Driver.PlanDirections` | recinder.py:47-49 | the add pass issues the remove pass's commands in the same order, not reversed, with only the direction changed |
| `Driver.PassTargets` | recinder.py:41-45 | an instance's commands act on exactly its entries' volumes, in order |
| `Driver.SortedTargets` | recinder.py:41 | sorting changes only the order of an instance's volumes, not which volumes are acted on |
| `Driver.PlanTargets` | recinder.py:39-45 | a pass acts on every entry of the map exactly once |
| `Driver.ListingCommands` | recinder.py:21-45 | each pass issues exactly one command per accepted listing line, acting on that line's instance and unquoted volume id |
| `Driver.EmptyInventory` | recinder.py:21-49 | a listing with no attached non-root volume gives the empty map and no call at all |
| `Driver.SwappedPair` | recinder.py:41-45 | two entries of one instance listed out of order are acted on in ascending order |
| `Driver.VdcAfterVdb` | recinder.py:41 | `/dev/vdc` sorts after `/dev/vdb` |
| `Driver.DevicesInOrder` | recinder.py:41-49 | an instance listing `/dev/vdc` before `/dev/vdb` gets exactly four calls: remove the `vdb` volume, remove the `vdc` volume, add the `vdb` volume, add the `vdc` volume |

## Left out

- The subprocess calls are not made. The listing from
  `openstack volume list -f csv` is a parameter of `GetCurrentMapping`.
  Each `subprocess.call` is recorded as a `Call` effect, and the exit status
  it returns (ignored by the script) is not modelled.
- `print` is recorded as a `Print` effect holding the line's text. Nothing
  is written anywhere.
- What the control plane does with the detach and attach commands is not
  modelled. This includes which device a reattached volume receives and
  whether a call fails.
- The relative order of instances comes from `dict.keys()` and is
  unspecified. The model leaves it open, as any enumeration of the keys,
  chosen once and used by both passes.
- CSV quoting is not modelled, because the script does not model it either.
  A line is split on every comma only after it passes the filter. A line
  that passes the filter and has a comma in its volume name fails with
  `FieldCount`, which stops the script before any call. A detached volume
  or a root volume with such a name is skipped like any other.
- `device_name` is assigned but never used in the script. The model does
  not compute it; `DeviceIgnored` states that the device plays no part in
  a command.
- Python 2 byte strings are modelled as `seq<char>`. Ordering compares
  characters by code point, which agrees with byte order for ASCII.
- `Recinder`: the script does not catch the exception when a line fails to
  parse. The model stops with that error before any effect, but it does not
  model the traceback.
