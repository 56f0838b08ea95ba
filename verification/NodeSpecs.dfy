/** Printing manifests as `id=url` strings and parsing them back. */
module NodeSpecs {
  import opened Wrappers
  import opened Sequences
  import opened Tokens
  import opened Numerals

  // ----- Strings

  function LeftStrip(s: string): string {
    if s != "" && IsWhitespace()(s[0]) then LeftStrip(s[1..]) else s
  }

  function RightStrip(s: string): string {
    if s != "" && IsWhitespace()(s[|s| - 1]) then RightStrip(s[..|s| - 1]) else s
  }

  function Strip(s: string): string {
    RightStrip(LeftStrip(s))
  }

  function WithoutTrailingSlashes(s: string): string {
    if s != "" && s[|s| - 1] == '/' then WithoutTrailingSlashes(s[..|s| - 1]) else s
  }

  predicate IsHttp(address: string) {
    "http://" <= address || "https://" <= address
  }

  /** `s.split("=", 1)`, when there is an "=". */
  function SplitAtEquals(s: string): Option<(string, string)> {
    if s == "" then None
    else if s[0] == '=' then Some(("", s[1..]))
    else
      match SplitAtEquals(s[1..])
      case None => None
      case Some((left, right)) => Some(([s[0]] + left, right))
  }

  /** No whitespace at either end. */
  ghost predicate Trimmed(s: string) {
    s != "" ==> !IsWhitespace()(s[0]) && !IsWhitespace()(s[|s| - 1])
  }

  lemma {:induction false} LeftStripTrims(s: string)
    ensures LeftStrip(s) != "" ==> !IsWhitespace()(LeftStrip(s)[0])
    ensures |LeftStrip(s)| <= |s|
  {
    if s != "" && IsWhitespace()(s[0]) {
      LeftStripTrims(s[1..]);
    }
  }

  lemma {:induction false} RightStripTrims(s: string)
    ensures RightStrip(s) <= s
    ensures RightStrip(s) != "" ==> !IsWhitespace()(RightStrip(s)[|RightStrip(s)| - 1])
  {
    if s != "" && IsWhitespace()(s[|s| - 1]) {
      RightStripTrims(s[..|s| - 1]);
    }
  }

  ghost predicate AllWhitespace(s: string) {
    forall i :: 0 <= i < |s| ==> IsWhitespace()(s[i])
  }

  /** `t` is what remains of `s` between whitespace at its ends. */
  ghost predicate StrippedFrom(t: string, s: string) {
    && Trimmed(t)
    && exists i, j :: 0 <= i <= j <= |s| && t == s[i..j] && AllWhitespace(s[..i]) && AllWhitespace(s[j..])
  }

  lemma {:induction false} LeftStripCuts(s: string) returns (i: nat)
    ensures i <= |s| && LeftStrip(s) == s[i..] && AllWhitespace(s[..i])
  {
    i := 0;
    if s != "" && IsWhitespace()(s[0]) {
      var j := LeftStripCuts(s[1..]);
      i := j + 1;
      assert s[..i] == [s[0]] + s[1..][..j];
    }
  }

  lemma {:induction false} RightStripCuts(s: string) returns (j: nat)
    ensures j <= |s| && RightStrip(s) == s[..j] && AllWhitespace(s[j..])
  {
    j := |s|;
    if s != "" && IsWhitespace()(s[|s| - 1]) {
      j := RightStripCuts(s[..|s| - 1]);
      assert s[j..] == s[..|s| - 1][j..] + [s[|s| - 1]];
    }
  }

  /** `strip` removes whitespace at both ends and nothing else. */
  lemma StripCuts(s: string)
    ensures StrippedFrom(Strip(s), s)
  {
    var i := LeftStripCuts(s);
    var k := RightStripCuts(s[i..]);
    StripTrims(s);
    assert s[i..][..k] == s[i..i + k] && s[i..][k..] == s[i + k..];
  }

  /** Nothing remains exactly when everything was whitespace. */
  lemma StripEmptyExactly(s: string)
    ensures Strip(s) == "" <==> AllWhitespace(s)
  {
    StripCuts(s);
    var i, j :| 0 <= i <= j <= |s| && Strip(s) == s[i..j] && AllWhitespace(s[..i]) && AllWhitespace(s[j..]);
    if i < j {
      assert s[i] == Strip(s)[0] && !IsWhitespace()(s[i]);
    } else {
      forall k | 0 <= k < |s| ensures IsWhitespace()(s[k]) {
        assert k < i ==> s[..i][k] == s[k];
        assert k >= i ==> s[j..][k - j] == s[k];
      }
    }
  }

  lemma StripTrims(s: string)
    ensures Trimmed(Strip(s)) && |Strip(s)| <= |s|
  {
    LeftStripTrims(s);
    RightStripTrims(LeftStrip(s));
  }

  lemma TrimmedUnchanged(s: string)
    requires Trimmed(s)
    ensures Strip(s) == s
  {
  }

  /** An "="-free id is split off whole; otherwise the split falls inside the id. */
  lemma {:induction false} SplitPrinted(id: string, rest: string)
    ensures SplitAtEquals(id + "=" + rest).Some?
    ensures '=' !in id ==> SplitAtEquals(id + "=" + rest) == Some((id, rest))
    ensures '=' in id ==> |SplitAtEquals(id + "=" + rest).value.0| < |id|
  {
    var s := id + "=" + rest;
    if id == "" {
      assert s == ['='] + rest;
    } else {
      assert s[1..] == id[1..] + "=" + rest && s[0] == id[0];
      SplitPrinted(id[1..], rest);
      assert id == [id[0]] + id[1..];
      assert '=' in id <==> id[0] == '=' || '=' in id[1..];
    }
  }

  /** The split is at the first "=", and there is none exactly when there is no "=". */
  lemma {:induction false} SplitExactly(s: string)
    ensures SplitAtEquals(s).None? <==> '=' !in s
    ensures SplitAtEquals(s).Some? ==>
              var (left, right) := SplitAtEquals(s).value; s == left + "=" + right && '=' !in left
  {
    if s != "" && s[0] != '=' {
      SplitExactly(s[1..]);
      assert s == [s[0]] + s[1..];
      if SplitAtEquals(s[1..]).Some? {
        var (left, right) := SplitAtEquals(s[1..]).value;
        assert [s[0]] + (left + "=" + right) == ([s[0]] + left) + "=" + right;
      }
    } else if s != "" {
      assert s == "" + "=" + s[1..];
    }
  }

  /** Only slashes are cut off, and none is left at the end. */
  lemma {:induction false} SlashesExactly(s: string)
    ensures var t := WithoutTrailingSlashes(s);
            && t <= s && (forall i :: |t| <= i < |s| ==> s[i] == '/')
            && (t != "" ==> t[|t| - 1] != '/')
  {
    if s != "" && s[|s| - 1] == '/' {
      SlashesExactly(s[..|s| - 1]);
    }
  }

  // ----- Manifests

  /** A manifest item; an absent field is the empty string. */
  datatype Item =
    | NotAnObject
    | Item(id: string, name: string, url: string, address: string, zone: string, region: string)

  datatype SpecError =
    | NoItems | NotObjects | Incomplete | NoSpecs | BadZone | BadSpec | DuplicateId | NotHttp | TooFewRegions

  function Or(a: string, b: string): string {
    if a != "" then a else b
  }

  /** One line of a manifest, as the loader reads it. */
  datatype Entry = Entry(id: string, address: string, zone: string) {
    /** What stripping leaves of non-empty fields. */
    ghost predicate Proper() {
      Filled() && Trimmed(id) && Trimmed(address)
    }

    predicate Filled() {
      id != "" && address != ""
    }
  }

  function EntryOf(item: Item): Entry {
    match item
    case NotAnObject => Entry("", "", "")
    case Item(id, name, url, address, zone, region) =>
      Entry(Strip(Or(id, name)), Strip(Or(url, address)), Strip(Or(zone, region)))
  }

  function Entries(items: seq<Item>): (r: seq<Entry>)
    ensures |r| == |items|
    ensures forall i :: 0 <= i < |r| ==> r[i] == EntryOf(items[i])
  {
    seq(|items|, i requires 0 <= i < |items| => EntryOf(items[i]))
  }

  /** Every item is an object with an id and an address. */
  ghost predicate AllComplete(items: seq<Item>) {
    AllFilled(Entries(items))
  }

  ghost predicate AllFilled(entries: seq<Entry>) {
    forall i :: 0 <= i < |entries| ==> entries[i].Filled()
  }

  lemma EntriesProper(items: seq<Item>)
    requires AllComplete(items)
    ensures AllProper(Entries(items))
  {
    forall i | 0 <= i < |items| ensures Entries(items)[i].Proper() {
      assert Entries(items)[i].Filled();
      EntryProper(items[i]);
    }
  }

  lemma EntryProper(item: Item)
    requires EntryOf(item).Filled()
    ensures EntryOf(item).Proper()
  {
    if item.Item? {
      StripTrims(Or(item.id, item.name));
      StripTrims(Or(item.url, item.address));
    }
  }

  function Printed(left: string, right: string): string {
    left + "=" + right
  }

  function NodeSpecs(entries: seq<Entry>): (r: seq<string>)
    ensures |r| == |entries|
    ensures forall i :: 0 <= i < |r| ==> r[i] == Printed(entries[i].id, entries[i].address)
  {
    seq(|entries|, i requires 0 <= i < |entries| => Printed(entries[i].id, entries[i].address))
  }

  function ZoneSpecs(entries: seq<Entry>): seq<string> {
    if entries == [] then []
    else
      var last := entries[|entries| - 1];
      ZoneSpecs(entries[..|entries| - 1]) + if last.zone != "" then [Printed(last.id, last.zone)] else []
  }

  /** An object with something but whitespace for an id and for an address. */
  ghost predicate Readable(item: Item) {
    && item.Item?
    && !AllWhitespace(if item.id != "" then item.id else item.name)
    && !AllWhitespace(if item.url != "" then item.url else item.address)
  }

  /** Why an item that is not readable fails. */
  function Complaint(item: Item): SpecError {
    if item.NotAnObject? then NotObjects else Incomplete
  }

  lemma FilledExactly(item: Item)
    ensures EntryOf(item).Filled() <==> Readable(item)
  {
    if item.Item? {
      StripEmptyExactly(Or(item.id, item.name));
      StripEmptyExactly(Or(item.url, item.address));
    }
  }

  /** What is read of an item is its id, address and zone, each without the whitespace around it. */
  method ReadEntry(item: Item) returns (r: Result<Entry, SpecError>)
    ensures r.Ok? <==> Readable(item)
    ensures r.Ok? ==>
              && StrippedFrom(r.value.id, if item.id != "" then item.id else item.name)
              && StrippedFrom(r.value.address, if item.url != "" then item.url else item.address)
              && StrippedFrom(r.value.zone, if item.zone != "" then item.zone else item.region)
              && r.value == EntryOf(item)
    ensures r.Err? ==> r.error == Complaint(item)
  {
    FilledExactly(item);
    if item.NotAnObject? {
      return Err(NotObjects);
    }
    StripCuts(Or(item.id, item.name));
    StripCuts(Or(item.url, item.address));
    StripCuts(Or(item.zone, item.region));
    var entry := EntryOf(item);
    r := if entry.id == "" || entry.address == "" then Err(Incomplete) else Ok(entry);
  }

  ghost predicate ReadableUpTo(items: seq<Item>, n: nat)
    requires n <= |items|
  {
    forall i :: 0 <= i < n ==> Readable(items[i])
  }

  /** The first item that cannot be read decides how the loading fails. */
  ghost predicate FailsWith(items: seq<Item>, e: SpecError) {
    exists n: nat :: n < |items| && ReadableUpTo(items, n) && !Readable(items[n]) && e == Complaint(items[n])
  }

  /** What one more item does to the reading. */
  lemma ReadStep(items: seq<Item>, n: nat)
    requires n < |items| && ReadableUpTo(items, n)
    ensures Readable(items[n]) ==> ReadableUpTo(items, n + 1)
    ensures !Readable(items[n]) ==> FailsWith(items, Complaint(items[n])) && !AllComplete(items)
    ensures Entries(items)[..n + 1] == Entries(items)[..n] + [EntryOf(items[n])]
  {
    TakeSnoc(Entries(items), n);
    hide Readable;
    if !Readable(items[n]) {
      NotComplete(items, n);
    }
  }

  lemma NotComplete(items: seq<Item>, n: nat)
    requires n < |items| && !Readable(items[n])
    ensures !AllComplete(items)
  {
    FilledExactly(items[n]);
    assert Entries(items)[n] == EntryOf(items[n]);
  }

  lemma AllReadable(items: seq<Item>)
    requires ReadableUpTo(items, |items|)
    ensures AllComplete(items)
  {
    forall i | 0 <= i < |items| ensures Entries(items)[i].Filled() {
      FilledExactly(items[i]);
    }
  }

  /** The loop both manifest loaders share: every item must be an object with an id and an address. */
  method ReadEntries(items: seq<Item>) returns (r: Result<seq<Entry>, SpecError>)
    ensures r.Ok? <==> AllComplete(items)
    ensures r.Ok? ==> r.value == Entries(items)
    ensures r.Err? ==> FailsWith(items, r.error)
  {
    var entries: seq<Entry> := [];
    for n := 0 to |items|
      invariant entries == Entries(items)[..n] && ReadableUpTo(items, n)
    {
      var entry := ReadEntry(items[n]);
      ReadStep(items, n);
      if entry.Err? {
        return Err(entry.error);
      }
      entries := entries + [entry.value];
    }
    TakeAll(Entries(items));
    AllReadable(items);
    r := Ok(entries);
  }

  /** `load_node_manifest`, from the decoded `nodes` array to the two lists of strings. */
  method LoadNodeManifest(items: seq<Item>) returns (r: Result<(seq<string>, seq<string>), SpecError>)
    ensures r.Ok? <==> items != [] && AllComplete(items)
    ensures r.Ok? ==> r.value == (NodeSpecs(Entries(items)), ZoneSpecs(Entries(items)))
    ensures r.Err? ==> if items == [] then r.error == NoItems else FailsWith(items, r.error)
  {
    if items == [] {
      return Err(NoItems);
    }
    var entries := ReadEntries(items);
    if entries.Err? {
      return Err(entries.error);
    }
    var zones := PrintZones(entries.value);
    r := Ok((NodeSpecs(entries.value), zones));
  }

  method PrintZones(entries: seq<Entry>) returns (zones: seq<string>)
    ensures zones == ZoneSpecs(entries)
  {
    zones := [];
    for n := 0 to |entries|
      invariant zones == ZoneSpecs(entries[..n])
    {
      TakeTake(entries, n);
      if entries[n].zone != "" {
        zones := zones + [Printed(entries[n].id, entries[n].zone)];
      }
    }
    TakeAll(entries);
  }

  /** `load_region_manifest`, likewise. */
  method LoadRegionManifest(items: seq<Item>) returns (r: Result<seq<string>, SpecError>)
    ensures r.Ok? <==> items != [] && AllComplete(items)
    ensures r.Ok? ==> r.value == NodeSpecs(Entries(items))
    ensures r.Err? ==> if items == [] then r.error == NoItems else FailsWith(items, r.error)
  {
    if items == [] {
      return Err(NoItems);
    }
    var entries := ReadEntries(items);
    if entries.Err? {
      return Err(entries.error);
    }
    r := Ok(NodeSpecs(entries.value));
  }

  // ----- Parsing

  /** The id and the address a spec string names, before any check. */
  function SpecParts(spec: string, index: nat, prefix: string): (string, string) {
    match SplitAtEquals(spec)
    case Some((id, address)) => (Strip(id), Strip(address))
    case None => (Strip(prefix + Padded(Decimal(index), 3)), Strip(spec))
  }

  function Parts(specs: seq<string>, prefix: string): (r: seq<(string, string)>)
    ensures |r| == |specs|
    ensures forall i :: 0 <= i < |r| ==> r[i] == SpecParts(specs[i], i, prefix)
  {
    seq(|specs|, i requires 0 <= i < |specs| => SpecParts(specs[i], i, prefix))
  }

  datatype Node = Node(id: string, address: string, zone: string)

  predicate HasId(nodes: seq<Node>, id: string) {
    exists i :: 0 <= i < |nodes| && nodes[i].id == id
  }

  function DefaultZone(index: nat): string {
    "zone-" + Decimal(index % 3)
  }

  /** Three default zones, in turn. */
  lemma DefaultZoneCycles(index: nat)
    ensures DefaultZone(index) == ["zone-0", "zone-1", "zone-2"][index % 3]
  {
    assert Decimal(0) == "0" && Decimal(1) == "1" && Decimal(2) == "2";
  }

  function NodeAt(part: (string, string), zones: map<string, string>, index: nat): Node {
    Node(part.0, WithoutTrailingSlashes(part.1), if part.0 in zones then zones[part.0] else DefaultZone(index))
  }

  /** Checks the parts in order and turns each into a node. */
  function BuildNodes(parts: seq<(string, string)>, zones: map<string, string>): Result<seq<Node>, SpecError> {
    if parts == [] then Ok([])
    else
      var index := |parts| - 1;
      var part := parts[index];
      match BuildNodes(parts[..index], zones)
      case Err(e) => Err(e)
      case Ok(nodes) =>
        if part.0 == "" || part.1 == "" then Err(BadSpec)
        else if HasId(nodes, part.0) then Err(DuplicateId)
        else if !IsHttp(part.1) then Err(NotHttp)
        else Ok(nodes + [NodeAt(part, zones, index)])
  }

  function ParseZones(specs: seq<string>): Result<map<string, string>, SpecError> {
    if specs == [] then Ok(map[])
    else
      match ParseZones(specs[..|specs| - 1])
      case Err(e) => Err(e)
      case Ok(zones) =>
        match SplitAtEquals(specs[|specs| - 1])
        case None => Err(BadZone)
        case Some((id, zone)) => if id == "" || zone == "" then Err(BadZone) else Ok(zones[id := zone])
  }

  function ParseNodes(specs: seq<string>, zones: seq<string>): Result<seq<Node>, SpecError> {
    if specs == [] then Err(NoSpecs)
    else
      match ParseZones(zones)
      case Err(e) => Err(e)
      case Ok(byId) => BuildNodes(Parts(specs, "node-"), byId)
  }

  lemma {:induction false} ZonesFailEarly(specs: seq<string>, n: nat)
    requires n <= |specs|
    ensures ParseZones(specs[..n]).Err? ==> ParseZones(specs) == Err(ParseZones(specs[..n]).error)
    decreases |specs| - n
  {
    if n < |specs| {
      TakeTake(specs, n);
      ZonesFailEarly(specs, n + 1);
    } else {
      assert specs[..n] == specs;
    }
  }

  method ParseZoneSpecs(specs: seq<string>) returns (r: Result<map<string, string>, SpecError>)
    ensures r == ParseZones(specs)
  {
    var zones: map<string, string> := map[];
    for n := 0 to |specs|
      invariant ParseZones(specs[..n]) == Ok(zones)
    {
      TakeTake(specs, n);
      ZonesFailEarly(specs, n + 1);
      var parts := SplitAtEquals(specs[n]);
      if parts.None? {
        return Err(BadZone);
      }
      var (id, zone) := parts.value;
      if id == "" || zone == "" {
        return Err(BadZone);
      }
      zones := zones[id := zone];
    }
    TakeAll(specs);
    r := Ok(zones);
  }

  /** A zone string that gives this id this zone. */
  ghost predicate GivesZone(spec: string, id: string, zone: string) {
    spec == id + "=" + zone && '=' !in id && id != "" && zone != ""
  }

  ghost predicate GivesSome(spec: string) {
    exists id, zone :: GivesZone(spec, id, zone)
  }

  /** The last string for this id gives it this zone. */
  ghost predicate LastZone(specs: seq<string>, id: string, zone: string) {
    exists i :: 0 <= i < |specs| && GivesZone(specs[i], id, zone)
                && forall j, other :: i < j < |specs| ==> !GivesZone(specs[j], id, other)
  }

  lemma GivesExactly(spec: string, id: string, zone: string)
    ensures GivesZone(spec, id, zone) <==> SplitAtEquals(spec) == Some((id, zone)) && id != "" && zone != ""
  {
    SplitExactly(spec);
    SplitPrinted(id, zone);
  }

  /** The zone strings are read exactly when each gives some id a zone, and the last one for an id decides. */
  lemma {:induction false} ZonesExactly(specs: seq<string>)
    ensures ParseZones(specs).Ok? <==> forall i :: 0 <= i < |specs| ==> GivesSome(specs[i])
    ensures ParseZones(specs).Ok? ==>
              forall id, zone ::
                id in ParseZones(specs).value && ParseZones(specs).value[id] == zone <==> LastZone(specs, id, zone)
  {
    if specs != [] {
      var before, last := specs[..|specs| - 1], specs[|specs| - 1];
      ZonesExactly(before);
      assert specs == before + [last];
      LastGives(last);
      if ParseZones(specs).Ok? {
        var (id, zone) := SplitAtEquals(last).value;
        GivesExactly(last, id, zone);
        forall x, y
          ensures x in ParseZones(specs).value && ParseZones(specs).value[x] == y <==> LastZone(specs, x, y)
        {
          LastZoneSnoc(before, last, id, zone, x, y);
        }
      }
    }
  }

  lemma LastGives(spec: string)
    ensures GivesSome(spec) <==>
              SplitAtEquals(spec).Some? && SplitAtEquals(spec).value.0 != "" && SplitAtEquals(spec).value.1 != ""
  {
    if SplitAtEquals(spec).Some? {
      GivesExactly(spec, SplitAtEquals(spec).value.0, SplitAtEquals(spec).value.1);
    }
    if id, zone :| GivesZone(spec, id, zone) {
      GivesExactly(spec, id, zone);
    }
  }

  lemma LastZoneSnoc(before: seq<string>, last: string, id: string, zone: string, x: string, y: string)
    requires GivesZone(last, id, zone)
    ensures LastZone(before + [last], x, y) <==> if x == id then y == zone else LastZone(before, x, y)
  {
    var specs := before + [last];
    forall a, b | GivesZone(last, a, b) ensures a == id && b == zone {
      GivesExactly(last, a, b);
      GivesExactly(last, id, zone);
    }
    hide GivesZone;
    assert specs[|before|] == last && forall j :: 0 <= j < |before| ==> specs[j] == before[j];
    if i :| 0 <= i < |specs| && GivesZone(specs[i], x, y)
            && forall j, other :: i < j < |specs| ==> !GivesZone(specs[j], x, other) {
      assert i < |before| ==> !GivesZone(specs[|before|], x, zone);
      assert x != id ==> GivesZone(before[i], x, y);
    }
    if x != id && LastZone(before, x, y) {
      var i :| 0 <= i < |before| && GivesZone(before[i], x, y)
               && forall j, other :: i < j < |before| ==> !GivesZone(before[j], x, other);
      assert GivesZone(specs[i], x, y);
    }
  }

  lemma {:induction false} NodesFailEarly(parts: seq<(string, string)>, zones: map<string, string>, n: nat)
    requires n <= |parts|
    ensures BuildNodes(parts[..n], zones).Err? ==> BuildNodes(parts, zones) == Err(BuildNodes(parts[..n], zones).error)
    decreases |parts| - n
  {
    if n < |parts| {
      TakeTake(parts, n);
      NodesFailEarly(parts, zones, n + 1);
    } else {
      assert parts[..n] == parts;
    }
  }

  lemma HasIdSnoc(nodes: seq<Node>, node: Node)
    ensures forall id :: HasId(nodes + [node], id) <==> HasId(nodes, id) || id == node.id
  {
    forall id ensures HasId(nodes + [node], id) <==> HasId(nodes, id) || id == node.id {
      var more := nodes + [node];
      assert more[|nodes|] == node;
      if i :| 0 <= i < |nodes| && nodes[i].id == id {
        assert more[i].id == id;
      }
    }
  }

  /** `parse_node_specs`. */
  method ParseNodeSpecs(specs: seq<string>, zones: seq<string>) returns (r: Result<seq<Node>, SpecError>)
    ensures r == ParseNodes(specs, zones)
  {
    if specs == [] {
      return Err(NoSpecs);
    }
    var zoneById := ParseZoneSpecs(zones);
    if zoneById.Err? {
      return Err(zoneById.error);
    }
    r := BuildNodeList(Parts(specs, "node-"), zoneById.value);
  }

  /** What is wrong with a part: something is missing, its id was used before, or it is not http(s). */
  ghost function Problem(parts: seq<(string, string)>, n: nat): Option<SpecError>
    requires n < |parts|
  {
    var (id, address) := parts[n];
    if id == "" || address == "" then Some(BadSpec)
    else if exists j :: 0 <= j < n && parts[j].0 == id then Some(DuplicateId)
    else if !("http://" <= address) && !("https://" <= address) then Some(NotHttp)
    else None
  }

  ghost predicate SoundUpTo(parts: seq<(string, string)>, n: nat)
    requires n <= |parts|
  {
    forall i :: 0 <= i < n ==> Problem(parts, i) == None
  }

  lemma NoDuplicate(parts: seq<(string, string)>, nodes: seq<Node>, zones: map<string, string>, n: nat)
    requires n < |parts| && |nodes| == n && Problem(parts, n) == None
    requires forall i :: 0 <= i < n ==> nodes[i] == NodeAt(parts[i], zones, i)
    ensures parts[n].0 != "" && parts[n].1 != "" && !HasId(nodes, parts[n].0) && IsHttp(parts[n].1)
  {
    hide WithoutTrailingSlashes;
    hide DefaultZone;
  }

  lemma NextNode(parts: seq<(string, string)>, zones: map<string, string>, n: nat, before: seq<Node>)
    returns (nodes: seq<Node>)
    requires n < |parts| && |before| == n && BuildNodes(parts[..n], zones) == Ok(before) && Problem(parts, n) == None
    requires forall i :: 0 <= i < n ==> before[i] == NodeAt(parts[i], zones, i)
    ensures BuildNodes(parts[..n + 1], zones) == Ok(nodes) && |nodes| == n + 1
    ensures forall i :: 0 <= i < n + 1 ==> nodes[i] == NodeAt(parts[i], zones, i)
  {
    NoDuplicate(parts, before, zones, n);
    NodeStep(parts, zones, n, before);
    nodes := before + [NodeAt(parts[n], zones, n)];
    hide *;
  }

  lemma {:induction false} SoundPrefix(parts: seq<(string, string)>, zones: map<string, string>, n: nat)
    returns (nodes: seq<Node>)
    requires n <= |parts| && forall i :: 0 <= i < n ==> Problem(parts, i) == None
    ensures BuildNodes(parts[..n], zones) == Ok(nodes) && |nodes| == n
    ensures forall i :: 0 <= i < n ==> nodes[i] == NodeAt(parts[i], zones, i)
    decreases n
  {
    nodes := [];
    if n > 0 {
      hide *;
      var before := SoundPrefix(parts, zones, n - 1);
      nodes := NextNode(parts, zones, n - 1, before);
    }
  }

  /** The parts build nodes exactly when none has a problem; otherwise the first problem is reported. */
  lemma BuildExactly(parts: seq<(string, string)>, zones: map<string, string>)
    ensures BuildNodes(parts, zones).Ok? <==> SoundUpTo(parts, |parts|)
    ensures forall n: nat :: n < |parts| && SoundUpTo(parts, n) && Problem(parts, n) != None ==>
              BuildNodes(parts, zones) == Err(Problem(parts, n).value)
  {
    forall n: nat | n < |parts| && SoundUpTo(parts, n) && Problem(parts, n) != None
      ensures BuildNodes(parts, zones) == Err(Problem(parts, n).value)
    {
      var nodes := SoundPrefix(parts, zones, n);
      NodeStep(parts, zones, n, nodes);
    }
    TakeAll(parts);
    if SoundUpTo(parts, |parts|) {
      var nodes := SoundPrefix(parts, zones, |parts|);
    } else {
      var n := FirstProblem(parts, |parts|);
    }
  }

  lemma {:induction false} FirstProblem(parts: seq<(string, string)>, m: nat) returns (n: nat)
    requires m <= |parts| && !SoundUpTo(parts, m)
    ensures n < m && SoundUpTo(parts, n) && Problem(parts, n) != None
    decreases m
  {
    n := m - 1;
    if !SoundUpTo(parts, m - 1) {
      n := FirstProblem(parts, m - 1);
    }
  }

  /** An http(s) address alone, without an id. */
  ghost predicate Bare(spec: string) {
    ("http://" <= spec || "https://" <= spec) && Trimmed(spec) && '=' !in spec
  }

  lemma NotBlank(c: char)
    requires '0' <= c <= '9' || c == 'n' || c == 'r'
    ensures !IsWhitespace()(c)
  {
  }

  lemma NumberTrimmed(prefix: string, index: nat)
    requires prefix == "node-" || prefix == "region-"
    ensures Trimmed(prefix + Padded(Decimal(index), 3))
  {
    hide IsWhitespace;
    DecimalReads(index);
    PaddedReads(Decimal(index), 3);
    PaddedDigits(Decimal(index), 3);
    var number := Padded(Decimal(index), 3);
    NotBlank(prefix[0]);
    NotBlank(number[|number| - 1]);
  }

  lemma BarePart(spec: string, index: nat, prefix: string)
    requires Bare(spec) && (prefix == "node-" || prefix == "region-")
    ensures SpecParts(spec, index, prefix) == (prefix + Padded(Decimal(index), 3), spec)
  {
    SplitExactly(spec);
    TrimmedUnchanged(spec);
    NumberTrimmed(prefix, index);
    TrimmedUnchanged(prefix + Padded(Decimal(index), 3));
    hide Trimmed;
    hide Strip;
    hide SplitAtEquals;
    hide Padded;
    hide Decimal;
  }

  lemma NumbersApart(prefix: string, i: nat, j: nat)
    requires i != j
    ensures prefix + Padded(Decimal(i), 3) != prefix + Padded(Decimal(j), 3)
  {
    DecimalReads(i);
    DecimalReads(j);
    PaddedReads(Decimal(i), 3);
    PaddedReads(Decimal(j), 3);
    assert (prefix + Padded(Decimal(i), 3))[|prefix|..] == Padded(Decimal(i), 3);
    assert (prefix + Padded(Decimal(j), 3))[|prefix|..] == Padded(Decimal(j), 3);
  }

  /** Any number of bare addresses builds: node `i` is numbered `i`, its address is the given one up to
      trailing slashes, even if another node has the same, and the three zones take turns. */
  lemma BareAddressesBuild(specs: seq<string>) returns (nodes: seq<Node>)
    requires specs != [] && forall i :: 0 <= i < |specs| ==> Bare(specs[i])
    ensures ParseNodes(specs, []) == Ok(nodes) && |nodes| == |specs|
    ensures forall i :: 0 <= i < |specs| ==>
              && nodes[i].id == "node-" + Padded(Decimal(i), 3)
              && nodes[i].address == WithoutTrailingSlashes(specs[i])
              && nodes[i].zone == ["zone-0", "zone-1", "zone-2"][i % 3]
  {
    var parts := Parts(specs, "node-");
    forall i | 0 <= i < |specs| ensures parts[i] == ("node-" + Padded(Decimal(i), 3), specs[i]) {
      BarePart(specs[i], i, "node-");
    }
    forall i | 0 <= i < |specs| ensures Problem(parts, i) == None {
      forall j | 0 <= j < i ensures parts[j].0 != parts[i].0 {
        NumbersApart("node-", i, j);
      }
    }
    nodes := SoundPrefix(parts, map[], |parts|);
    TakeAll(parts);
    forall i | 0 <= i < |specs| ensures nodes[i].zone == ["zone-0", "zone-1", "zone-2"][i % 3] {
      DefaultZoneCycles(i);
    }
  }

  /** What one more part does to the nodes so far. */
  lemma NodeStep(parts: seq<(string, string)>, zones: map<string, string>, n: nat, nodes: seq<Node>)
    requires n < |parts| && BuildNodes(parts[..n], zones) == Ok(nodes)
    ensures var (id, address) := parts[n];
            var r := if id == "" || address == "" then Err(BadSpec)
                     else if HasId(nodes, id) then Err(DuplicateId)
                     else if !IsHttp(address) then Err(NotHttp)
                     else Ok(nodes + [NodeAt(parts[n], zones, n)]);
            BuildNodes(parts[..n + 1], zones) == r && (r.Err? ==> BuildNodes(parts, zones) == r)
  {
    TakeTake(parts, n);
    NodesFailEarly(parts, zones, n + 1);
  }

  method BuildNodeList(parts: seq<(string, string)>, zones: map<string, string>)
    returns (r: Result<seq<Node>, SpecError>)
    ensures r == BuildNodes(parts, zones)
  {
    var nodes: seq<Node> := [];
    var seen: set<string> := {};
    assert BuildNodes(parts[..0], zones) == Ok([]);
    hide BuildNodes;
    for n := 0 to |parts|
      invariant BuildNodes(parts[..n], zones) == Ok(nodes)
      invariant forall id :: id in seen <==> HasId(nodes, id)
    {
      NodeStep(parts, zones, n, nodes);
      var (id, address) := parts[n];
      if id == "" || address == "" {
        return Err(BadSpec);
      }
      if id in seen {
        return Err(DuplicateId);
      }
      if !IsHttp(address) {
        return Err(NotHttp);
      }
      var node := NodeAt(parts[n], zones, n);
      HasIdSnoc(nodes, node);
      seen := seen + {id};
      nodes := nodes + [node];
    }
    TakeAll(parts);
    r := Ok(nodes);
  }

  // ----- Round trip of nodes

  ghost predicate AllProper(entries: seq<Entry>) {
    forall i :: 0 <= i < |entries| ==> entries[i].Proper()
  }

  ghost predicate DistinctIds(entries: seq<Entry>) {
    forall i, j :: 0 <= i < j < |entries| ==> entries[i].id != entries[j].id
  }

  /** Ids are distinct and free of "=", addresses are http(s). */
  ghost predicate Printable(entries: seq<Entry>) {
    && (forall i :: 0 <= i < |entries| ==> '=' !in entries[i].id && IsHttp(entries[i].address))
    && DistinctIds(entries)
  }

  /** What a manifest line says, as a node. */
  function NodeOf(e: Entry, index: nat): Node {
    Node(e.id, WithoutTrailingSlashes(e.address), if e.zone != "" then e.zone else DefaultZone(index))
  }

  function ManifestNodes(entries: seq<Entry>): (r: seq<Node>)
    ensures |r| == |entries|
    ensures forall i :: 0 <= i < |r| ==> r[i] == NodeOf(entries[i], i)
  {
    seq(|entries|, i requires 0 <= i < |entries| => NodeOf(entries[i], i))
  }

  lemma PrintedParts(e: Entry, index: nat, prefix: string)
    requires e.Proper()
    ensures var parts := SpecParts(Printed(e.id, e.address), index, prefix);
            && ('=' !in e.id ==> parts == (e.id, e.address))
            && ('=' in e.id ==> parts.0 != e.id)
  {
    SplitPrinted(e.id, e.address);
    TrimmedUnchanged(e.id);
    TrimmedUnchanged(e.address);
    StripTrims(SplitAtEquals(Printed(e.id, e.address)).value.0);
  }

  /** The zones of the entries, by id. */
  ghost predicate ZonesOf(zones: map<string, string>, entries: seq<Entry>) {
    forall i :: 0 <= i < |entries| ==>
      && (entries[i].id in zones <==> entries[i].zone != "")
      && (entries[i].id in zones ==> zones[entries[i].id] == entries[i].zone)
  }

  ghost predicate NamesEntry(entries: seq<Entry>, id: string) {
    exists i :: 0 <= i < |entries| && entries[i].id == id
  }

  /** The zone table after one more entry. */
  function WithZone(zones: map<string, string>, e: Entry): map<string, string> {
    if e.zone != "" then zones[e.id := e.zone] else zones
  }

  lemma ZoneSpecParses(entries: seq<Entry>, zones: map<string, string>)
    requires entries != []
    requires entries[|entries| - 1].id != "" && '=' !in entries[|entries| - 1].id
    requires ParseZones(ZoneSpecs(entries[..|entries| - 1])) == Ok(zones)
    ensures ParseZones(ZoneSpecs(entries)) == Ok(WithZone(zones, entries[|entries| - 1]))
  {
    var before, last := ZoneSpecs(entries[..|entries| - 1]), entries[|entries| - 1];
    if last.zone != "" {
      ZonePrinted(last.id, last.zone);
      ParseZonesSnoc(before, Printed(last.id, last.zone), last.id, last.zone);
      assert ZoneSpecs(entries) == before + [Printed(last.id, last.zone)];
    } else {
      assert ZoneSpecs(entries) == before + [] == before;
    }
  }

  lemma ZonePrinted(id: string, zone: string)
    requires '=' !in id
    ensures SplitAtEquals(Printed(id, zone)) == Some((id, zone))
  {
    SplitPrinted(id, zone);
  }

  lemma ParseZonesSnoc(specs: seq<string>, spec: string, id: string, zone: string)
    requires ParseZones(specs).Ok? && SplitAtEquals(spec) == Some((id, zone)) && id != "" && zone != ""
    ensures ParseZones(specs + [spec]) == Ok(ParseZones(specs).value[id := zone])
  {
    assert (specs + [spec])[..|specs|] == specs;
  }

  lemma {:induction false} ZonesParse(entries: seq<Entry>) returns (zones: map<string, string>)
    requires AllProper(entries) && DistinctIds(entries)
    requires forall i :: 0 <= i < |entries| ==> '=' !in entries[i].id
    ensures ParseZones(ZoneSpecs(entries)) == Ok(zones) && ZonesOf(zones, entries) && NoOtherZones(zones, entries)
  {
    if entries == [] {
      zones := map[];
    } else {
      var before := ZonesParse(entries[..|entries| - 1]);
      ZoneSpecParses(entries, before);
      ZonesGrow(entries, before);
      zones := WithZone(before, entries[|entries| - 1]);
    }
  }

  ghost predicate NoOtherZones(zones: map<string, string>, entries: seq<Entry>) {
    forall id :: id in zones ==> NamesEntry(entries, id)
  }

  lemma ZonesGrow(entries: seq<Entry>, zones: map<string, string>)
    requires entries != [] && DistinctIds(entries)
    requires ZonesOf(zones, entries[..|entries| - 1]) && NoOtherZones(zones, entries[..|entries| - 1])
    ensures ZonesOf(WithZone(zones, entries[|entries| - 1]), entries)
    ensures NoOtherZones(WithZone(zones, entries[|entries| - 1]), entries)
  {
    var n := |entries| - 1;
    var last, more := entries[n], WithZone(zones, entries[n]);
    assert last.id !in zones;
    forall i | 0 <= i <= n
      ensures entries[i].id in more <==> entries[i].zone != ""
      ensures entries[i].id in more ==> more[entries[i].id] == entries[i].zone
    {
      if i < n {
        assert entries[..n][i] == entries[i];
      }
    }
    forall id | id in more ensures NamesEntry(entries, id) {
      if id in zones {
        var i :| 0 <= i < n && entries[..n][i].id == id;
        assert entries[i].id == id;
      }
    }
  }

  lemma NewNode(entries: seq<Entry>, n: nat)
    requires n < |entries| && DistinctIds(entries)
    ensures !HasId(ManifestNodes(entries[..n]), entries[n].id)
    ensures ManifestNodes(entries[..n + 1]) == ManifestNodes(entries[..n]) + [NodeOf(entries[n], n)]
    ensures n + 1 == |entries| ==> entries[..n + 1] == entries
  {
    var nodes := ManifestNodes(entries[..n]);
    forall i | 0 <= i < n ensures nodes[i].id != entries[n].id {
      assert nodes[i].id == entries[i].id;
    }
  }

  lemma BuildStep(parts: seq<(string, string)>, zones: map<string, string>, nodes: seq<Node>)
    requires parts != [] && BuildNodes(parts[..|parts| - 1], zones) == Ok(nodes)
    requires var part := parts[|parts| - 1];
             part.0 != "" && part.1 != "" && !HasId(nodes, part.0) && IsHttp(part.1)
    ensures BuildNodes(parts, zones) == Ok(nodes + [NodeAt(parts[|parts| - 1], zones, |parts| - 1)])
  {
  }

  lemma {:induction false} NodesBuilt(parts: seq<(string, string)>, entries: seq<Entry>, zones: map<string, string>)
    requires |parts| == |entries| && AllProper(entries) && DistinctIds(entries) && ZonesOf(zones, entries)
    requires forall i :: 0 <= i < |entries| ==>
               parts[i] == (entries[i].id, entries[i].address) && IsHttp(entries[i].address)
    ensures BuildNodes(parts, zones) == Ok(ManifestNodes(entries))
  {
    if entries != [] {
      var n := |entries| - 1;
      NodesBuilt(parts[..n], entries[..n], zones);
      NewNode(entries, n);
      assert entries[n].Proper();
      assert NodeAt(parts[n], zones, n) == NodeOf(entries[n], n);
      BuildStep(parts, zones, ManifestNodes(entries[..n]));
    }
  }

  /** Each node is its own part with the slashes off its address and the zone given for its id, or the
      default of its position; and no two share an id. */
  ghost predicate Faithful(nodes: seq<Node>, parts: seq<(string, string)>, zones: map<string, string>) {
    && |nodes| == |parts|
    && (forall i :: 0 <= i < |parts| ==> nodes[i] == NodeAt(parts[i], zones, i) && IsHttp(parts[i].1))
    && (forall i, j :: 0 <= i < j < |nodes| ==> nodes[i].id != nodes[j].id)
  }

  lemma FaithfulSnoc(nodes: seq<Node>, parts: seq<(string, string)>, zones: map<string, string>, part: (string, string))
    requires Faithful(nodes, parts, zones) && !HasId(nodes, part.0) && IsHttp(part.1)
    ensures Faithful(nodes + [NodeAt(part, zones, |parts|)], parts + [part], zones)
  {
    hide DefaultZone;
    hide WithoutTrailingSlashes;
    hide IsHttp;
    var more := nodes + [NodeAt(part, zones, |parts|)];
    forall i | 0 <= i < |nodes| ensures more[i].id != part.0 {
      assert more[i] == nodes[i];
    }
  }

  lemma BuiltStep(parts: seq<(string, string)>, zones: map<string, string>) returns (before: seq<Node>)
    requires parts != [] && BuildNodes(parts, zones).Ok?
    ensures var part := parts[|parts| - 1];
            && BuildNodes(parts[..|parts| - 1], zones) == Ok(before)
            && BuildNodes(parts, zones) == Ok(before + [NodeAt(part, zones, |parts| - 1)])
            && !HasId(before, part.0) && IsHttp(part.1)
  {
    before := BuildNodes(parts[..|parts| - 1], zones).value;
  }

  lemma {:induction false} BuiltNodesFaithful(parts: seq<(string, string)>, zones: map<string, string>)
    requires BuildNodes(parts, zones).Ok?
    ensures Faithful(BuildNodes(parts, zones).value, parts, zones)
  {
    if parts != [] {
      hide Faithful;
      hide BuildNodes;
      hide HasId;
      var n := |parts| - 1;
      var before := BuiltStep(parts, zones);
      BuiltNodesFaithful(parts[..n], zones);
      FaithfulSnoc(before, parts[..n], zones, parts[n]);
      TakeSnoc(parts, n);
      TakeAll(parts);
    }
  }

  /** Parsing what was printed gives back the manifest exactly when its ids are distinct and free of
      "=" and its addresses are http(s). */
  lemma NodeRoundTrip(entries: seq<Entry>)
    requires entries != [] && AllProper(entries)
    ensures ParseNodes(NodeSpecs(entries), ZoneSpecs(entries)) == Ok(ManifestNodes(entries)) <==> Printable(entries)
  {
    var parts := Parts(NodeSpecs(entries), "node-");
    forall i | 0 <= i < |entries|
      ensures '=' !in entries[i].id ==> parts[i] == (entries[i].id, entries[i].address)
      ensures '=' in entries[i].id ==> parts[i].0 != entries[i].id
    {
      PrintedParts(entries[i], i, "node-");
    }
    if Printable(entries) {
      var zones := ZonesParse(entries);
      NodesBuilt(parts, entries, zones);
    }
    if ParseNodes(NodeSpecs(entries), ZoneSpecs(entries)) == Ok(ManifestNodes(entries)) {
      BuiltNodesFaithful(parts, ParseZones(ZoneSpecs(entries)).value);
      var nodes := ManifestNodes(entries);
      forall i | 0 <= i < |entries| ensures '=' !in entries[i].id && IsHttp(entries[i].address) {
        assert nodes[i].id == entries[i].id == parts[i].0;
      }
      forall i, j | 0 <= i < j < |entries| ensures entries[i].id != entries[j].id {
        assert nodes[i].id != nodes[j].id;
      }
    }
  }

  /** An id with "=" comes back cut short. */
  lemma EqualsInIdIsLost()
    ensures var e := Entry("a=b", "http://h", "");
            e.Proper() && ParseNodes(NodeSpecs([e]), ZoneSpecs([e])) != Ok(ManifestNodes([e]))
  {
    var e := Entry("a=b", "http://h", "");
    LettersAndSigns();
    assert e.id[1] == '=';
    assert AllProper([e]) && !Printable([e]) by {
      assert [e][0].id[1] == '=';
    }
    NodeRoundTrip([e]);
  }

  lemma LettersAndSigns()
    ensures !IsWhitespace()('a') && !IsWhitespace()('b') && !IsWhitespace()('h') && !IsWhitespace()('/')
  {
  }

  /** From a manifest to nodes, through the strings of both. */
  method ManifestToNodes(items: seq<Item>) returns (r: Result<seq<Node>, SpecError>)
    ensures items == [] || !AllComplete(items) ==> r.Err?
    ensures items != [] && AllComplete(items) ==>
              (r == Ok(ManifestNodes(Entries(items))) <==> Printable(Entries(items)))
  {
    var specs := LoadNodeManifest(items);
    if specs.Err? {
      return Err(specs.error);
    }
    EntriesProper(items);
    NodeRoundTrip(Entries(items));
    r := ParseNodeSpecs(specs.value.0, specs.value.1);
  }

  // ----- Regions

  predicate HasRegion(regions: seq<(string, string)>, id: string) {
    exists i :: 0 <= i < |regions| && regions[i].0 == id
  }

  /** Checks the parts in order; slashes are stripped before the address is checked. */
  function BuildRegions(parts: seq<(string, string)>): Result<seq<(string, string)>, SpecError> {
    if parts == [] then Ok([])
    else
      var (id, raw) := parts[|parts| - 1];
      var address := WithoutTrailingSlashes(raw);
      match BuildRegions(parts[..|parts| - 1])
      case Err(e) => Err(e)
      case Ok(regions) =>
        if id == "" || address == "" then Err(BadSpec)
        else if !IsHttp(address) then Err(NotHttp)
        else if HasRegion(regions, id) then Err(DuplicateId)
        else Ok(regions + [(id, address)])
  }

  function ParseRegions(specs: seq<string>): Result<seq<(string, string)>, SpecError> {
    match BuildRegions(Parts(specs, "region-"))
    case Err(e) => Err(e)
    case Ok(regions) => if |regions| < 2 then Err(TooFewRegions) else Ok(regions)
  }

  lemma {:induction false} RegionsFailEarly(parts: seq<(string, string)>, n: nat)
    requires n <= |parts|
    ensures BuildRegions(parts[..n]).Err? ==> BuildRegions(parts) == Err(BuildRegions(parts[..n]).error)
    decreases |parts| - n
  {
    if n < |parts| {
      TakeTake(parts, n);
      RegionsFailEarly(parts, n + 1);
    } else {
      assert parts[..n] == parts;
    }
  }

  /** What one more part does to the regions so far. */
  lemma RegionStep(parts: seq<(string, string)>, n: nat, regions: seq<(string, string)>)
    requires n < |parts| && BuildRegions(parts[..n]) == Ok(regions)
    ensures var id, address := parts[n].0, WithoutTrailingSlashes(parts[n].1);
            var r := if id == "" || address == "" then Err(BadSpec)
                     else if !IsHttp(address) then Err(NotHttp)
                     else if HasRegion(regions, id) then Err(DuplicateId)
                     else Ok(regions + [(id, address)]);
            BuildRegions(parts[..n + 1]) == r && (r.Err? ==> BuildRegions(parts) == r)
  {
    TakeTake(parts, n);
    RegionsFailEarly(parts, n + 1);
  }

  /** What is wrong with a part of a region: slashes go first, and the address is checked before the id. */
  ghost function RegionProblem(parts: seq<(string, string)>, n: nat): Option<SpecError>
    requires n < |parts|
  {
    var id, address := parts[n].0, WithoutTrailingSlashes(parts[n].1);
    if id == "" || address == "" then Some(BadSpec)
    else if !("http://" <= address) && !("https://" <= address) then Some(NotHttp)
    else if exists j :: 0 <= j < n && parts[j].0 == id then Some(DuplicateId)
    else None
  }

  ghost predicate RegionsSoundUpTo(parts: seq<(string, string)>, n: nat)
    requires n <= |parts|
  {
    forall i :: 0 <= i < n ==> RegionProblem(parts, i) == None
  }

  lemma {:induction false} RegionsPrefix(parts: seq<(string, string)>, n: nat) returns (regions: seq<(string, string)>)
    requires n <= |parts| && RegionsSoundUpTo(parts, n)
    ensures BuildRegions(parts[..n]) == Ok(regions) && |regions| == n
    ensures forall i :: 0 <= i < n ==> regions[i] == (parts[i].0, WithoutTrailingSlashes(parts[i].1))
    decreases n
  {
    regions := [];
    if n > 0 {
      var before := RegionsPrefix(parts, n - 1);
      RegionStep(parts, n - 1, before);
      assert RegionProblem(parts, n - 1) == None;
      regions := before + [(parts[n - 1].0, WithoutTrailingSlashes(parts[n - 1].1))];
    }
  }

  /** The parts are regions exactly when none has a problem; otherwise the first problem is reported. */
  lemma RegionsExactly(parts: seq<(string, string)>)
    ensures BuildRegions(parts).Ok? <==> RegionsSoundUpTo(parts, |parts|)
    ensures forall n: nat :: n < |parts| && RegionsSoundUpTo(parts, n) && RegionProblem(parts, n) != None ==>
              BuildRegions(parts) == Err(RegionProblem(parts, n).value)
  {
    forall n: nat | n < |parts| && RegionsSoundUpTo(parts, n) && RegionProblem(parts, n) != None
      ensures BuildRegions(parts) == Err(RegionProblem(parts, n).value)
    {
      var regions := RegionsPrefix(parts, n);
      RegionStep(parts, n, regions);
    }
    TakeAll(parts);
    if RegionsSoundUpTo(parts, |parts|) {
      var regions := RegionsPrefix(parts, |parts|);
    } else {
      var n := FirstRegionProblem(parts, |parts|);
    }
  }

  lemma {:induction false} FirstRegionProblem(parts: seq<(string, string)>, m: nat) returns (n: nat)
    requires m <= |parts| && !RegionsSoundUpTo(parts, m)
    ensures n < m && RegionsSoundUpTo(parts, n) && RegionProblem(parts, n) != None
    decreases m
  {
    n := m - 1;
    if !RegionsSoundUpTo(parts, m - 1) {
      n := FirstRegionProblem(parts, m - 1);
    }
  }

  /** Bare addresses that outlive the cutting of their slashes are regions, numbered in order, exactly
      when there are two or more. */
  lemma BareRegionsBuild(specs: seq<string>)
    requires forall i :: 0 <= i < |specs| ==> Bare(specs[i]) && IsHttp(WithoutTrailingSlashes(specs[i]))
    ensures if |specs| < 2 then ParseRegions(specs) == Err(TooFewRegions)
            else ParseRegions(specs) == Ok(seq(|specs|, i requires 0 <= i < |specs| =>
                   ("region-" + Padded(Decimal(i), 3), WithoutTrailingSlashes(specs[i]))))
  {
    var parts := Parts(specs, "region-");
    forall i | 0 <= i < |specs| ensures parts[i] == ("region-" + Padded(Decimal(i), 3), specs[i]) {
      BarePart(specs[i], i, "region-");
    }
    forall i | 0 <= i < |specs| ensures RegionProblem(parts, i) == None {
      forall j | 0 <= j < i ensures parts[j].0 != parts[i].0 {
        NumbersApart("region-", i, j);
      }
    }
    var regions := RegionsPrefix(parts, |parts|);
    TakeAll(parts);
    assert regions == seq(|specs|, i requires 0 <= i < |specs| =>
                            ("region-" + Padded(Decimal(i), 3), WithoutTrailingSlashes(specs[i])));
  }

  /** `parse_region_specs`: the id-to-address dictionary, in insertion order. */
  method ParseRegionSpecs(specs: seq<string>) returns (r: Result<seq<(string, string)>, SpecError>)
    ensures r == ParseRegions(specs)
  {
    var parts := Parts(specs, "region-");
    var regions: seq<(string, string)> := [];
    assert BuildRegions(parts[..0]) == Ok([]);
    hide BuildRegions;
    hide HasRegion;
    hide Parts;
    for n := 0 to |parts|
      invariant BuildRegions(parts[..n]) == Ok(regions)
    {
      RegionStep(parts, n, regions);
      var id, address := parts[n].0, WithoutTrailingSlashes(parts[n].1);
      if id == "" || address == "" {
        return Err(BadSpec);
      }
      if !IsHttp(address) {
        return Err(NotHttp);
      }
      if HasRegion(regions, id) {
        return Err(DuplicateId);
      }
      regions := regions + [(id, address)];
    }
    TakeAll(parts);
    r := if |regions| < 2 then Err(TooFewRegions) else Ok(regions);
  }

  function ManifestRegions(entries: seq<Entry>): (r: seq<(string, string)>)
    ensures |r| == |entries|
    ensures forall i :: 0 <= i < |r| ==> r[i] == (entries[i].id, WithoutTrailingSlashes(entries[i].address))
  {
    seq(|entries|, i requires 0 <= i < |entries| => (entries[i].id, WithoutTrailingSlashes(entries[i].address)))
  }

  /** As for nodes, but the address must still be http(s) once its slashes are gone. */
  ghost predicate PrintableRegions(entries: seq<Entry>) {
    && (forall i :: 0 <= i < |entries| ==>
          '=' !in entries[i].id && IsHttp(WithoutTrailingSlashes(entries[i].address)))
    && DistinctIds(entries)
  }

  lemma NewRegion(entries: seq<Entry>, n: nat)
    requires n < |entries| && DistinctIds(entries)
    ensures !HasRegion(ManifestRegions(entries[..n]), entries[n].id)
    ensures ManifestRegions(entries[..n + 1])
         == ManifestRegions(entries[..n]) + [(entries[n].id, WithoutTrailingSlashes(entries[n].address))]
    ensures n + 1 == |entries| ==> entries[..n + 1] == entries
  {
    var regions := ManifestRegions(entries[..n]);
    forall i | 0 <= i < n ensures regions[i].0 != entries[n].id {
      assert regions[i].0 == entries[i].id;
    }
  }

  lemma {:induction false} RegionsBuilt(parts: seq<(string, string)>, entries: seq<Entry>)
    requires |parts| == |entries| && AllProper(entries) && DistinctIds(entries)
    requires forall i :: 0 <= i < |entries| ==>
               parts[i] == (entries[i].id, entries[i].address) && IsHttp(WithoutTrailingSlashes(entries[i].address))
    ensures BuildRegions(parts) == Ok(ManifestRegions(entries))
  {
    if entries != [] {
      var n := |entries| - 1;
      RegionsBuilt(parts[..n], entries[..n]);
      assert entries[n].Proper() && WithoutTrailingSlashes(entries[n].address) != "";
      NewRegion(entries, n);
      hide BuildRegions;
      hide ManifestRegions;
      hide WithoutTrailingSlashes;
      RegionStep(parts, n, ManifestRegions(entries[..n]));
      TakeAll(parts);
    }
  }

  lemma {:induction false} BuiltRegionsFaithful(parts: seq<(string, string)>)
    requires BuildRegions(parts).Ok?
    ensures var regions := BuildRegions(parts).value;
            && |regions| == |parts|
            && (forall i :: 0 <= i < |parts| ==>
                  regions[i] == (parts[i].0, WithoutTrailingSlashes(parts[i].1)) && IsHttp(regions[i].1))
            && (forall i, j :: 0 <= i < j < |regions| ==> regions[i].0 != regions[j].0)
  {
    if parts != [] {
      var n := |parts| - 1;
      BuiltRegionsFaithful(parts[..n]);
      var before := BuildRegions(parts[..n]).value;
      forall i | 0 <= i < n ensures before[i].0 != parts[n].0 {
        assert !HasRegion(before, parts[n].0);
      }
      assert BuildRegions(parts).value == before + [(parts[n].0, WithoutTrailingSlashes(parts[n].1))];
    }
  }

  /** The region round trip holds exactly for at least two printable regions. */
  lemma RegionRoundTrip(entries: seq<Entry>)
    requires AllProper(entries)
    ensures ParseRegions(NodeSpecs(entries)) == Ok(ManifestRegions(entries))
        <==> |entries| >= 2 && PrintableRegions(entries)
  {
    var parts := Parts(NodeSpecs(entries), "region-");
    forall i | 0 <= i < |entries|
      ensures '=' !in entries[i].id ==> parts[i] == (entries[i].id, entries[i].address)
      ensures '=' in entries[i].id ==> parts[i].0 != entries[i].id
    {
      PrintedParts(entries[i], i, "region-");
    }
    if PrintableRegions(entries) {
      RegionsBuilt(parts, entries);
    }
    if ParseRegions(NodeSpecs(entries)) == Ok(ManifestRegions(entries)) {
      BuiltRegionsFaithful(parts);
      var regions := ManifestRegions(entries);
      forall i | 0 <= i < |entries|
        ensures '=' !in entries[i].id && IsHttp(WithoutTrailingSlashes(entries[i].address))
      {
        assert regions[i].0 == entries[i].id == parts[i].0;
      }
      forall i, j | 0 <= i < j < |entries| ensures entries[i].id != entries[j].id {
        assert regions[i].0 != regions[j].0;
      }
    }
  }

  lemma BareSchemeStripped()
    ensures !IsHttp(WithoutTrailingSlashes("http://"))
  {
    assert "http://"[..6] == "http:/" && "http:/"[..5] == "http:";
    assert WithoutTrailingSlashes("http://") == "http:";
  }

  /** Two regions whose second address is only a scheme: an address for nodes, none for regions. */
  lemma BareSchemeIsLost()
    ensures var entries := [Entry("a", "http://h", ""), Entry("b", "http://", "")];
            && AllProper(entries)
            && ParseNodes(NodeSpecs(entries), ZoneSpecs(entries)) == Ok(ManifestNodes(entries))
            && ParseRegions(NodeSpecs(entries)) != Ok(ManifestRegions(entries))
  {
    var entries := [Entry("a", "http://h", ""), Entry("b", "http://", "")];
    BareSchemeStripped();
    BareSchemePrintable();
    hide *;
    NodeRoundTrip(entries);
    RegionRoundTrip(entries);
    NotPrintableRegion(entries, 1);
  }

  lemma NotPrintableRegion(entries: seq<Entry>, i: nat)
    requires i < |entries| && !IsHttp(WithoutTrailingSlashes(entries[i].address))
    ensures !PrintableRegions(entries)
  {
  }

  lemma BareSchemePrintable()
    ensures AllProper([Entry("a", "http://h", ""), Entry("b", "http://", "")])
    ensures Printable([Entry("a", "http://h", ""), Entry("b", "http://", "")])
  {
    LettersAndSigns();
    assert '=' !in "a" && '=' !in "b" && "a" != "b" by {
      assert "a"[0] != "b"[0];
    }
    assert IsHttp("http://h") by {
      assert "http://h"[..7] == "http://";
    }
  }

  /** From a region manifest to regions, through the strings. */
  method ManifestToRegions(items: seq<Item>) returns (r: Result<seq<(string, string)>, SpecError>)
    ensures items == [] || !AllComplete(items) ==> r.Err?
    ensures items != [] && AllComplete(items) ==>
              (r == Ok(ManifestRegions(Entries(items))) <==> |items| >= 2 && PrintableRegions(Entries(items)))
  {
    var specs := LoadRegionManifest(items);
    if specs.Err? {
      return Err(specs.error);
    }
    EntriesProper(items);
    RegionRoundTrip(Entries(items));
    r := ParseRegionSpecs(specs.value);
  }
}
