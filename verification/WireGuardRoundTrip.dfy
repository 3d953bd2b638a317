/**
 The profile parser and the canonical printer undo each other, and the canonical text is never more
 than 20 bytes longer than the text it came from.
 */
module WireGuardRoundTrip {
  import opened Text
  import opened WireGuard

  // ----- What the line loop keeps -----

  /** A value the line loop can store. */
  predicate Clean(value: string) {
    value != "" && Trimmed(value) && '\n' !in value
  }

  predicate CleanValues(values: Values, keys: seq<Key>) {
    forall k :: k in values ==> k in keys && Clean(values[k])
  }

  predicate WellFormed(st: State) {
    CleanValues(st.iface, INTERFACE_KEYS) && CleanValues(st.peer, PEER_KEYS)
  }

  lemma StepKeepsWellFormed(st: State, line: string)
    requires WellFormed(st) && '\n' !in line && Step(st, line).Ok?
    ensures WellFormed(Step(st, line).value)
  {
    hide FoldedName, SectionNamed, Lower, Trimmed, TrimSpace, IndexOf, FindKey;
    var text := TrimSpace(line);
    var cut := IndexOf(text, '=');
    TrimKeepsOut(line, '\n');
    if cut < |text| {
      CutKeepsOut(text, cut + 1, '\n');
      TrimKeepsOut(text[cut + 1..], '\n');
    }
  }

  lemma {:induction false} ScanKeepsWellFormed(text: string, st: State)
    requires WellFormed(st) && Scan(text, st).Ok?
    ensures WellFormed(Scan(text, st).value)
    decreases |text|
  {
    if text != "" {
      var end := IndexOf(text, '\n');
      var line := DropCarriageReturn(text[..end]);
      StepKeepsWellFormed(st, line);
      if end < |text| {
        ScanKeepsWellFormed(text[end + 1..], Step(st, line).value);
      }
    }
  }

  // ----- Printing a directive and reading it back -----

  predicate IsSeparator(separator: string) {
    separator == "=" || separator == " = "
  }

  predicate Folds(name: string, folded: string) {
    && name != "" && |name| == |folded| && AllLetters(name)
    && forall i :: 0 <= i < |name| ==> folded[i] == LowerChar(name[i])
  }

  lemma InterfaceNamesFold()
    ensures Folds("PrivateKey", "privatekey") && Folds("Address", "address")
    ensures Folds("DNS", "dns") && Folds("MTU", "mtu")
  {
  }

  lemma PeerNamesFold()
    ensures Folds("PublicKey", "publickey") && Folds("Endpoint", "endpoint") && Folds("AllowedIPs", "allowedips")
  {
  }

  lemma PresharedNameFolds()
    ensures Folds("PresharedKey", "presharedkey")
  {
  }

  lemma KeepaliveNameFolds()
    ensures Folds("PersistentKeepalive", "persistentkeepalive")
  {
  }

  lemma NameFolds(key: Key)
    ensures Name(key) != "" && AllLetters(Name(key)) && Lower(Name(key)) == FoldedName(key)
    ensures |Name(key)| == |FoldedName(key)|
  {
    assert Folds(Name(key), FoldedName(key)) by {
      hide Folds;
      InterfaceNamesFold();
      PeerNamesFold();
      PresharedNameFolds();
      KeepaliveNameFolds();
    }
    hide Name, FoldedName;
    LowerOfLetters(Name(key));
    assert Lower(Name(key)) == FoldedName(key);
  }

  lemma FoldedNameInjective(a: Key, b: Key)
    requires FoldedName(a) == FoldedName(b)
    ensures a == b
  {
    assert |FoldedName(a)| == |FoldedName(b)| && FoldedName(a)[0] == FoldedName(b)[0];
  }

  lemma FindKeyByName(keys: seq<Key>, key: Key)
    requires key in keys
    ensures FindKey(keys, FoldedName(key)) == Some(key)
  {
    var found := FindKey(keys, FoldedName(key));
    FoldedNameInjective(found.value, key);
  }

  /** No white space can hide across the boundary between an ASCII non-space byte and a trimmed value. */
  lemma PrefixedValueTrimmed(prefix: string, value: string)
    requires prefix != "" && IsAsciiLetter(prefix[0])
    requires prefix[|prefix| - 1] == ' ' || prefix[|prefix| - 1] == '='
    requires Clean(value)
    ensures Trimmed(prefix + value)
    ensures value[|value| - 1] != '\r'
  {
    var line := prefix + value;
    var k := |line|;
    assert line[k - 1] == value[|value| - 1];
    if |value| >= 2 {
      assert line[k - 2] == value[|value| - 2];
    }
    if |value| >= 3 {
      assert line[k - 3] == value[|value| - 3];
    }
  }

  lemma TrimPaddedName(name: string)
    requires name != "" && AllLetters(name)
    ensures TrimSpace(name) == name && TrimSpace(name + " ") == name
  {
    assert IsAsciiLetter(name[0]) && IsAsciiLetter(name[|name| - 1]);
    assert Trimmed(name);
    var padded := name + " ";
    assert padded[..|padded| - 1] == name;
    assert TrimLeft(padded) == padded;
    assert TrimRight(padded) == TrimRight(name) == name;
  }

  lemma TrimPaddedValue(value: string)
    requires Clean(value)
    ensures TrimSpace(" " + value) == value
  {
    assert (" " + value)[1..] == value;
    assert TrimLeft(" " + value) == TrimLeft(value) == value;
  }

  lemma CutDirective(name: string, separator: string, value: string)
    requires name != "" && AllLetters(name) && IsSeparator(separator) && Clean(value)
    ensures
      var line := name + separator + value;
      var cut := IndexOf(line, '=');
      cut < |line| && TrimSpace(line[..cut]) == name && TrimSpace(line[cut + 1..]) == value
  {
    hide LeadingSpace, TrailingSpace, Trimmed, TrimSpace;
    var line := name + separator + value;
    TrimPaddedName(name);
    TrimPaddedValue(value);
    if separator == "=" {
      IndexOfConcat(name, '=', value);
      assert line[..|name|] == name && line[|name| + 1..] == value;
    } else {
      var padded := name + " ";
      assert line == padded + ['='] + (" " + value);
      IndexOfConcat(padded, '=', " " + value);
      assert line[..|padded|] == padded && line[|padded| + 1..] == " " + value;
    }
  }

  lemma StepDirective(st: State, key: Key, separator: string, value: string)
    requires st.section != NoSection && key in Keys(st.section) && key !in st.Values(st.section)
    requires IsSeparator(separator) && Clean(value)
    ensures Step(st, Name(key) + separator + value) == Ok(st.Put(st.section, key, value))
  {
    hide FoldedName, Name, SectionNamed, Lower, Trimmed, TrimSpace, IndexOf, FindKey;
    NameFolds(key);
    var line := Name(key) + separator + value;
    PrefixedValueTrimmed(Name(key) + separator, value);
    CutDirective(Name(key), separator, value);
    assert IsAsciiLetter(line[0]);
    FindKeyByName(Keys(st.section), key);
  }

  lemma ScanLine(line: string, rest: string, st: State)
    requires '\n' !in line && (line != "" ==> line[|line| - 1] != '\r')
    ensures
      var next := Step(st, line);
      Scan(line + "\n" + rest, st) == if next.Ok? then Scan(rest, next.value) else next
  {
    var text := line + ['\n'] + rest;
    IndexOfConcat(line, '\n', rest);
    assert text[..|line|] == line && text[|line| + 1..] == rest;
  }

  lemma ScanDirective(st: State, key: Key, separator: string, value: string, rest: string)
    requires st.section != NoSection && key in Keys(st.section) && key !in st.Values(st.section)
    requires IsSeparator(separator) && Clean(value)
    ensures Scan((Name(key) + separator + value) + "\n" + rest, st) == Scan(rest, st.Put(st.section, key, value))
  {
    hide Step, Scan, Name, FoldedName, Lower, Trimmed, Keys;
    var line := Name(key) + separator + value;
    NameFolds(key);
    PrefixedValueTrimmed(Name(key) + separator, value);
    assert '\n' !in line;
    StepDirective(st, key, separator, value);
    ScanLine(line, rest, st);
  }

  function Select(values: Values, keys: seq<Key>): Values {
    map k | k in keys && k in values :: values[k]
  }

  function Extend(st: State, values: Values): State {
    if st.section == Interface then st.(iface := st.iface + values) else st.(peer := st.peer + values)
  }

  predicate Distinct(keys: seq<Key>) {
    forall i, j :: 0 <= i < j < |keys| ==> keys[i] != keys[j]
  }

  lemma SelectCons(values: Values, keys: seq<Key>)
    requires keys != []
    ensures keys[0] !in values ==> Select(values, keys) == Select(values, keys[1..])
    ensures keys[0] in values ==> Select(values, keys) == map[keys[0] := values[keys[0]]] + Select(values, keys[1..])
  {
    assert forall k :: k in keys <==> k == keys[0] || k in keys[1..];
  }

  lemma ExtendPut(st: State, key: Key, value: string, rest: Values)
    ensures Extend(st.Put(st.section, key, value), rest) == Extend(st, map[key := value] + rest)
  {
    var values := st.Values(st.section);
    assert values[key := value] + rest == values + (map[key := value] + rest);
  }

  lemma PrintedLine(values: Values, keys: seq<Key>, separator: string, rest: string)
    requires keys != [] && Get(values, keys[0]) != ""
    ensures PrintKeys(values, keys, separator) + rest
         == (Name(keys[0]) + separator + values[keys[0]]) + "\n" + (PrintKeys(values, keys[1..], separator) + rest)
  {
  }

  /** The line loop reads a printed block back into the section it belongs to. */
  lemma {:induction false} ScanPrintedKeys(values: Values, keys: seq<Key>, separator: string, rest: string, st: State)
    requires IsSeparator(separator) && st.section != NoSection && Distinct(keys)
    requires forall k :: k in keys ==> k in Keys(st.section) && k !in st.Values(st.section)
    requires forall k :: k in values ==> Clean(values[k])
    ensures Scan(PrintKeys(values, keys, separator) + rest, st) == Scan(rest, Extend(st, Select(values, keys)))
    decreases |keys|
  {
    hide FoldedName, Name, Scan, Trimmed, IsSeparator, Keys;
    if keys == [] {
      assert PrintKeys(values, keys, separator) + rest == rest;
      assert Extend(st, Select(values, keys)) == st;
    } else {
      var key, tail := keys[0], keys[1..];
      SelectCons(values, keys);
      if key in values {
        var value := values[key];
        PrintedLine(values, keys, separator, rest);
        ScanDirective(st, key, separator, value, PrintKeys(values, tail, separator) + rest);
        var next := st.Put(st.section, key, value);
        ScanPrintedKeys(values, tail, separator, rest, next);
        ExtendPut(st, key, value, Select(values, tail));
      } else {
        assert PrintKeys(values, keys, separator) == PrintKeys(values, tail, separator);
        ScanPrintedKeys(values, tail, separator, rest, st);
      }
    }
  }

  // ----- Reading a whole text back -----

  lemma StepHeader(st: State, name: string, section: Section)
    requires name != "" && AllLetters(name) && section != NoSection && section !in st.seen
    requires SectionNamed(Lower(name)) == section
    ensures Step(st, "[" + name + "]") == Ok(st.(section := section, seen := st.seen + {section}))
  {
    hide SectionNamed, Lower, TrimSpace;
    var line := "[" + name + "]";
    assert Trimmed(line);
    hide Trimmed;
    assert line[1..|line| - 1] == name;
    TrimPaddedName(name);
  }

  lemma HeadersFold(st: State)
    ensures Interface !in st.seen ==>
              Step(st, "[Interface]") == Ok(st.(section := Interface, seen := st.seen + {Interface}))
    ensures Peer !in st.seen ==>
              Step(st, "[Peer]") == Ok(st.(section := Peer, seen := st.seen + {Peer}))
  {
    hide Step, Lower;
    LowerOfLetters("Interface");
    LowerOfLetters("Peer");
    assert Lower("Interface") == "interface";
    assert Lower("Peer") == "peer";
    assert "[" + "Interface" + "]" == "[Interface]";
    assert "[" + "Peer" + "]" == "[Peer]";
    if Interface !in st.seen {
      StepHeader(st, "Interface", Interface);
    }
    if Peer !in st.seen {
      StepHeader(st, "Peer", Peer);
    }
  }

  lemma ScanEnd(st: State)
    ensures Scan("", st) == Ok(st)
  {
  }

  lemma StepBlank(st: State)
    ensures Step(st, "") == Ok(st)
  {
  }

  lemma KeysDistinct()
    ensures Distinct(INTERFACE_KEYS) && Distinct(PEER_KEYS)
  {
  }

  /** A two-section text, with `gap` between the sections. */
  function Render(iface: Values, peer: Values, separator: string, gap: string): string {
    "[Interface]\n" + PrintKeys(iface, INTERFACE_KEYS, separator) +
    gap + "[Peer]\n" + PrintKeys(peer, PEER_KEYS, separator)
  }

  lemma SelectAll(values: Values, keys: seq<Key>)
    requires CleanValues(values, keys)
    ensures Select(values, keys) == values && map[] + Select(values, keys) == values
  {
    hide Clean;
  }

  /** A whole printed section, read into an empty one. */
  lemma ScanBlock(values: Values, separator: string, rest: string, st: State)
    requires CleanValues(values, Keys(st.section)) && IsSeparator(separator)
    requires st.section != NoSection && st.Values(st.section) == map[]
    ensures Scan(PrintKeys(values, Keys(st.section), separator) + rest, st) == Scan(rest, Extend(st, values))
  {
    KeysDistinct();
    SelectAll(values, Keys(st.section));
    hide Scan, PrintKeys, IsSeparator, Distinct, Select, Clean;
    ScanPrintedKeys(values, Keys(st.section), separator, rest, st);
  }

  lemma ScanHeader(st: State, header: string, rest: string)
    requires (header == "[Interface]" && Interface !in st.seen) || (header == "[Peer]" && Peer !in st.seen)
    ensures
      var section := if header == "[Peer]" then Peer else Interface;
      Scan(header + "\n" + rest, st) == Scan(rest, st.(section := section, seen := st.seen + {section}))
  {
    hide Scan, Step;
    HeadersFold(st);
    ScanLine(header, rest, st);
  }

  lemma ScanBlank(rest: string, st: State)
    ensures Scan("\n" + rest, st) == Scan(rest, st)
  {
    hide Scan, Step;
    StepBlank(st);
    assert "\n" + rest == "" + "\n" + rest;
    ScanLine("", rest, st);
  }

  lemma ScanPeerSection(iface: Values, peer: Values, separator: string, gap: string)
    requires CleanValues(peer, PEER_KEYS)
    requires IsSeparator(separator) && (gap == "" || gap == "\n")
    ensures Scan(gap + "[Peer]\n" + PrintKeys(peer, PEER_KEYS, separator), State(Interface, {Interface}, iface, map[]))
         == Ok(State(Peer, {Interface, Peer}, iface, peer))
  {
    hide Scan, PrintKeys, IsSeparator, CleanValues;
    var text := PrintKeys(peer, PEER_KEYS, separator);
    var st, atPeer := State(Interface, {Interface}, iface, map[]), State(Peer, {Interface, Peer}, iface, map[]);
    assert st.(section := Peer, seen := st.seen + {Peer}) == atPeer;
    var rest := "[Peer]" + "\n" + (text + "");
    if gap == "" {
      assert gap + "[Peer]\n" + text == rest;
    } else {
      assert gap + "[Peer]\n" + text == "\n" + rest;
      ScanBlank(rest, st);
    }
    ScanHeader(st, "[Peer]", text + "");
    ScanBlock(peer, separator, "", atPeer);
    assert map[] + peer == peer;
    ScanEnd(atPeer.(peer := peer));
  }

  lemma ScanRendered(iface: Values, peer: Values, separator: string, gap: string)
    requires CleanValues(iface, INTERFACE_KEYS) && CleanValues(peer, PEER_KEYS)
    requires IsSeparator(separator) && (gap == "" || gap == "\n")
    ensures Scan(Render(iface, peer, separator, gap), START) == Ok(State(Peer, {Interface, Peer}, iface, peer))
  {
    hide Scan, PrintKeys, IsSeparator, CleanValues;
    var rest := gap + "[Peer]\n" + PrintKeys(peer, PEER_KEYS, separator);
    var text := PrintKeys(iface, INTERFACE_KEYS, separator) + rest;
    var st := State(Interface, {Interface}, map[], map[]);
    assert Render(iface, peer, separator, gap) == "[Interface]" + "\n" + text;
    assert START.(section := Interface, seen := START.seen + {Interface}) == st;
    ScanHeader(START, "[Interface]", text);
    ScanBlock(iface, separator, rest, st);
    assert map[] + iface == iface;
    ScanPeerSection(iface, peer, separator, gap);
  }

  lemma CanonicalIsRendered(iface: Values, peer: Values)
    ensures Canonical(iface, peer) == Render(iface, peer, " = ", "\n")
    ensures '\n' in Canonical(iface, peer)
  {
    assert "\n[Peer]\n" == "\n" + "[Peer]\n";
    assert Canonical(iface, peer)[11] == '\n';
  }

  // ----- The length bound -----

  /** The fewest bytes a block of directives can take, one line each with its newline. */
  function BlockWeight(values: Values, keys: seq<Key>): nat {
    if keys == [] then 0
    else (if keys[0] in values then |Name(keys[0])| + |values[keys[0]]| + 2 else 0) + BlockWeight(values, keys[1..])
  }

  function Weight(st: State): nat {
    (if Interface in st.seen then 12 else 0) + (if Peer in st.seen then 7 else 0) +
    BlockWeight(st.iface, INTERFACE_KEYS) + BlockWeight(st.peer, PEER_KEYS)
  }

  lemma {:induction false} BlockWeightPut(values: Values, keys: seq<Key>, key: Key, value: string)
    requires Distinct(keys) && key !in values
    ensures BlockWeight(values[key := value], keys)
         == BlockWeight(values, keys) + if key in keys then |Name(key)| + |value| + 2 else 0
  {
    if keys != [] {
      assert forall k :: k in keys <==> k == keys[0] || k in keys[1..];
      BlockWeightPut(values, keys[1..], key, value);
    }
  }

  lemma SectionNameLength(name: string)
    ensures SectionNamed(name) == Interface ==> |name| == 9
    ensures SectionNamed(name) == Peer ==> |name| == 4
  {
  }

  lemma PutWeight(st: State, key: Key, value: string)
    requires st.section != NoSection && key in Keys(st.section) && key !in st.Values(st.section)
    ensures Weight(st.Put(st.section, key, value)) == Weight(st) + |Name(key)| + |value| + 2
  {
    hide Name, BlockWeight, Distinct;
    KeysDistinct();
    BlockWeightPut(st.Values(st.section), Keys(st.section), key, value);
  }

  lemma StepWeight(st: State, line: string)
    requires Step(st, line).Ok?
    ensures Weight(Step(st, line).value) <= Weight(st) + |line| + 1
  {
    hide FoldedName, Name, TrimSpace, SectionNamed, Trimmed, BlockWeight, FindKey, IndexOf;
    var text := TrimSpace(line);
    if text == "" || text[0] == '#' || text[0] == ';' {
    } else if text[0] == '[' && text[|text| - 1] == ']' {
      SectionNameLength(Lower(TrimSpace(text[1..|text| - 1])));
    } else {
      var cut := IndexOf(text, '=');
      var folded, value := Lower(TrimSpace(text[..cut])), TrimSpace(text[cut + 1..]);
      var key := FindKey(Keys(st.section), folded).value;
      NameFolds(key);
      PutWeight(st, key, value);
    }
  }

  lemma {:induction false} ScanWeight(text: string, st: State)
    requires Scan(text, st).Ok?
    ensures Weight(Scan(text, st).value) <= Weight(st) + |text| + 1
    decreases |text|
  {
    hide Step, Weight;
    if text != "" {
      var end := IndexOf(text, '\n');
      var line := DropCarriageReturn(text[..end]);
      StepWeight(st, line);
      if end < |text| {
        ScanWeight(text[end + 1..], Step(st, line).value);
      }
    }
  }

  function Count(values: Values, keys: seq<Key>): (n: nat)
    ensures n <= |keys|
  {
    if keys == [] then 0 else (if keys[0] in values then 1 else 0) + Count(values, keys[1..])
  }

  lemma {:induction false} PrintedLength(values: Values, keys: seq<Key>, separator: string)
    requires IsSeparator(separator) && forall k :: k in values ==> values[k] != ""
    ensures |PrintKeys(values, keys, separator)|
         == BlockWeight(values, keys) + Count(values, keys) * (|separator| - 1)
  {
    hide Name;
    if keys != [] {
      var n, m := Count(values, keys), Count(values, keys[1..]);
      assert |PrintKey(values, keys[0], separator)|
          == if keys[0] in values then |Name(keys[0])| + |values[keys[0]]| + 2 + (|separator| - 1) else 0;
      hide PrintKey;
      PrintedLength(values, keys[1..], separator);
      assert n * (|separator| - 1) == m * (|separator| - 1) + if keys[0] in values then |separator| - 1 else 0;
    }
  }

  lemma CanonicalLength(iface: Values, peer: Values)
    requires CleanValues(iface, INTERFACE_KEYS) && CleanValues(peer, PEER_KEYS)
    ensures |Canonical(iface, peer)| == 20 + BlockWeight(iface, INTERFACE_KEYS) + BlockWeight(peer, PEER_KEYS)
                                        + 2 * Count(iface, INTERFACE_KEYS) + 2 * Count(peer, PEER_KEYS)
  {
    hide PrintKeys, BlockWeight, Count, Trimmed;
    PrintedLength(iface, INTERFACE_KEYS, " = ");
    PrintedLength(peer, PEER_KEYS, " = ");
  }

  // ----- Main results -----

  /** Printing and re-reading any section map the line loop can build rebuilds exactly that map. */
  lemma CanonicalRebuilds(raw: string)
    requires ReadSections(raw).Ok?
    ensures
      var st := ReadSections(raw).value;
      Scan(Canonical(st.iface, st.peer), START) == Ok(State(Peer, {Interface, Peer}, st.iface, st.peer))
  {
    ScanKeepsWellFormed(raw, START);
    var st := ReadSections(raw).value;
    CanonicalIsRendered(st.iface, st.peer);
    ScanRendered(st.iface, st.peer, " = ", "\n");
  }

  lemma CanonicalBound(checks: Checks, raw: string)
    requires ParseText(checks, raw).Ok?
    ensures |ParseText(checks, raw).value.canonical| <= |raw| + 20
  {
    ScanKeepsWellFormed(raw, START);
    ScanWeight(raw, START);
    var st := ReadSections(raw).value;
    CanonicalLength(st.iface, st.peer);
    EmptyWeight();
  }

  lemma EmptyBlock(keys: seq<Key>)
    ensures BlockWeight(map[], keys) == 0
  {
  }

  lemma EmptyWeight()
    ensures Weight(START) == 0
  {
    EmptyBlock(INTERFACE_KEYS);
    EmptyBlock(PEER_KEYS);
  }

  /**
   The canonical text of an accepted profile parses to itself and to the same endpoint exactly when
   it still fits the size limit; otherwise the size limit is what rejects it.
   */
  lemma ReparseCanonical(checks: Checks, raw: string)
    requires ParseText(checks, raw).Ok?
    ensures
      var parsed := ParseText(checks, raw).value;
      ParseText(checks, parsed.canonical) ==
      if |parsed.canonical| <= MAX_CONFIG_BYTES then Ok(parsed) else Err(Size)
  {
    hide Scan, Canonical, Invalid;
    CanonicalRebuilds(raw);
    var st := ReadSections(raw).value;
    CanonicalIsRendered(st.iface, st.peer);
  }

  /** Every accepted text of at most 65516 bytes is stable under re-parsing. */
  lemma ShortProfilesAreStable(checks: Checks, raw: string)
    requires ParseText(checks, raw).Ok? && |raw| <= MAX_CONFIG_BYTES - 20
    ensures ParseText(checks, ParseText(checks, raw).value.canonical) == ParseText(checks, raw)
  {
    ReparseCanonical(checks, raw);
    CanonicalBound(checks, raw);
  }

  /** What the parser is for: no accepted profile, read again, routes less than everything. */
  lemma AcceptedProfileKeepsDefaultRoute(checks: Checks, raw: string)
    requires ParseText(checks, raw).Ok?
    ensures
      var again := Scan(ParseText(checks, raw).value.canonical, START);
      again.Ok? && "0.0.0.0/0" in SplitCsv(Get(again.value.peer, AllowedIps))
      && checks.wireGuardKey(Get(again.value.iface, PrivateKey))
  {
    hide Scan, Canonical, SplitCsv;
    CanonicalRebuilds(raw);
  }

  // ----- The bound is attained, and the size limit does reject some canonical texts -----

  lemma {:induction false} ScanFinalNewline(text: string, st: State)
    requires text != "" && text[|text| - 1] != '\n'
    ensures Scan(text + "\n", st) == Scan(text, st)
    decreases |text|
  {
    hide Step, IndexOf;
    var end := IndexOf(text, '\n');
    var line := text[..end];
    var next := Step(st, DropCarriageReturn(line));
    if end == |text| {
      assert line == text;
      FirstLineKept(text + "\n", line, "");
    } else {
      var rest := text[end + 1..];
      assert text == line + ['\n'] + rest;
      assert text + "\n" == line + ['\n'] + (rest + "\n");
      FirstLineKept(text + "\n", line, rest + "\n");
      if next.Ok? {
        ScanFinalNewline(rest, next.value);
      }
    }
  }

  lemma FirstLineKept(text: string, line: string, rest: string)
    requires '\n' !in line && text == line + ['\n'] + rest
    ensures IndexOf(text, '\n') == |line| && text[..|line|] == line && text[|line| + 1..] == rest
  {
    hide IndexOf;
    IndexOfConcat(line, '\n', rest);
  }

  lemma {:induction false} PrintedEnds(values: Values, keys: seq<Key>, separator: string)
    requires keys != [] && forall k :: k in keys ==> k in values && Clean(values[k])
    ensures
      var text := PrintKeys(values, keys, separator);
      |text| >= 2 && text[|text| - 1] == '\n' && text[|text| - 2] != '\n'
  {
    hide Name, Trimmed;
    PrintedLine(values, keys, separator, "");
    var value, rest := values[keys[0]], PrintKeys(values, keys[1..], separator);
    assert PrintKeys(values, keys, separator) == PrintKeys(values, keys, separator) + "";
    if keys[1..] == [] {
      assert PrintKeys(values, keys, separator) == Name(keys[0]) + separator + value + "\n";
    } else {
      PrintedEnds(values, keys[1..], separator);
    }
  }

  /** The shortest text with these directives: no spaces, no blank line, no final newline. */
  function Compact(iface: Values, peer: Values): string {
    var text := Render(iface, peer, "=", "");
    text[..|text| - 1]
  }

  /** All nine directives are present, with printable values. */
  predicate AllNine(iface: Values, peer: Values) {
    && CleanValues(iface, INTERFACE_KEYS) && CleanValues(peer, PEER_KEYS)
    && (forall k :: k in INTERFACE_KEYS ==> k in iface) && (forall k :: k in PEER_KEYS ==> k in peer)
  }

  lemma {:induction false} CountAll(values: Values, keys: seq<Key>)
    requires forall k :: k in keys ==> k in values
    ensures Count(values, keys) == |keys|
  {
    if keys != [] {
      CountAll(values, keys[1..]);
    }
  }

  lemma CompactEnds(iface: Values, peer: Values)
    requires AllNine(iface, peer)
    ensures
      var compact := Compact(iface, peer);
      |compact| > 12 && compact[11] == '\n' && compact[|compact| - 1] != '\n' &&
      Render(iface, peer, "=", "") == compact + "\n"
  {
    hide PrintKeys, Clean;
    PrintedEnds(peer, PEER_KEYS, "=");
    var text, compact := Render(iface, peer, "=", ""), Compact(iface, peer);
    var tail := PrintKeys(peer, PEER_KEYS, "=");
    assert text[|text| - 1] == tail[|tail| - 1] && text[|text| - 2] == tail[|tail| - 2];
    assert text[11] == '\n';
  }

  lemma CompactLength(iface: Values, peer: Values)
    requires AllNine(iface, peer)
    ensures |Canonical(iface, peer)| == |Compact(iface, peer)| + 20
  {
    hide PrintKeys, BlockWeight, Count, Trimmed;
    CanonicalLength(iface, peer);
    PrintedLength(iface, INTERFACE_KEYS, "=");
    PrintedLength(peer, PEER_KEYS, "=");
    CountAll(iface, INTERFACE_KEYS);
    CountAll(peer, PEER_KEYS);
  }

  /** With all nine directives present, the compact text is read the same and is exactly 20 bytes shorter. */
  lemma BoundIsAttained(iface: Values, peer: Values)
    requires AllNine(iface, peer)
    ensures Scan(Compact(iface, peer), START) == Ok(State(Peer, {Interface, Peer}, iface, peer))
    ensures |Canonical(iface, peer)| == |Compact(iface, peer)| + 20
  {
    hide Scan, Render, Compact, Clean;
    CompactLength(iface, peer);
    CompactEnds(iface, peer);
    ScanRendered(iface, peer, "=", "");
    ScanFinalNewline(Compact(iface, peer), START);
  }

  /** Accepted, yet its own canonical text is refused: re-parsing at save time is not redundant. */
  lemma SizeLimitRejectsCanonical(checks: Checks, iface: Values, peer: Values)
    requires AllNine(iface, peer) && Invalid(checks, iface, peer).None?
    requires MAX_CONFIG_BYTES - 20 < |Compact(iface, peer)| <= MAX_CONFIG_BYTES
    ensures ParseText(checks, Compact(iface, peer)) == Ok(Parsed(Canonical(iface, peer), Get(peer, Endpoint)))
    ensures ParseText(checks, Canonical(iface, peer)) == Err(Size)
  {
    hide Scan, Compact, Canonical, Clean, Invalid;
    BoundIsAttained(iface, peer);
    CompactEnds(iface, peer);
  }

  // A concrete profile of that kind: `AllowedIPs` padded with commas, which `SplitCsv` ignores.

  function PaddedRoutes(padding: nat): string {
    "0.0.0.0/0" + seq(padding, _ => ',')
  }

  function WitnessPeer(padding: nat): Values {
    WITNESS_BASE[AllowedIps := PaddedRoutes(padding)]
  }

  /** Base64 of 32 zero bytes. */
  function WitnessKey(): string {
    seq(43, _ => 'A') + "="
  }

  const WITNESS_ADDRESS := "10.0.0.2/32"
  const WITNESS_DNS := "1.1.1.1"
  const WITNESS_HOST := "192.0.2.1"
  const WITNESS_ENDPOINT := "192.0.2.1:51820"

  const WITNESS_BASE: Values := map[PublicKey := WitnessKey(), PresharedKey := WitnessKey(),
                                    Endpoint := WITNESS_ENDPOINT, PersistentKeepalive := "25"]

  const WITNESS_INTERFACE: Values := map[PrivateKey := WitnessKey(), Address := WITNESS_ADDRESS,
                                         Dns := WITNESS_DNS, Mtu := "1420"]

  /** The decoders read these genuine values as Go's library does. */
  predicate ReadsWitness(checks: Checks) {
    && checks.wireGuardKey(WitnessKey())
    && checks.cidr(WITNESS_ADDRESS) && checks.cidr("0.0.0.0/0") && checks.ip(WITNESS_DNS)
    && checks.hostPort(WITNESS_ENDPOINT) == Some((WITNESS_HOST, "51820")) && checks.ip(WITNESS_HOST)
    && checks.atoi("51820") == Some(51820) && checks.atoi("1420") == Some(1420) && checks.atoi("25") == Some(25)
  }

  /** Printable ASCII without spaces. */
  predicate Plain(s: string) {
    s != "" && forall i :: 0 <= i < |s| ==> '!' <= s[i] <= '~'
  }

  lemma PlainIsClean(s: string)
    requires Plain(s)
    ensures Clean(s)
  {
  }

  lemma PlainValues()
    ensures Plain(WitnessKey()) && Plain(WITNESS_ADDRESS) && Plain(WITNESS_DNS) && Plain(WITNESS_ENDPOINT)
    ensures Plain("1420") && Plain("25")
  {
  }

  lemma OneItem(item: string)
    requires Plain(item) && ',' !in item
    ensures SplitCsv(item) == [item]
  {
    PlainIsClean(item);
    hide Trimmed, TrimSpace, Plain;
    assert item[..|item|] == item;
  }

  lemma {:induction false} OnlyCommas(n: nat)
    ensures SplitCsv(seq(n, _ => ',')) == []
  {
    var commas := seq(n, _ => ',');
    if n > 0 {
      assert commas[1..] == seq(n - 1, _ => ',');
      OnlyCommas(n - 1);
      assert commas[..0] == "";
    }
  }

  /** The padding adds no route. */
  lemma PaddedItems(padding: nat)
    ensures SplitCsv(PaddedRoutes(padding)) == ["0.0.0.0/0"]
  {
    var route, routes := "0.0.0.0/0", PaddedRoutes(padding);
    assert Plain(route) && ',' !in route;
    if padding == 0 {
      assert routes == route;
      OneItem(route);
    } else {
      var rest := seq(padding - 1, _ => ',');
      PlainIsClean(route);
      assert routes == route + [','] + rest;
      hide Trimmed, TrimSpace, Plain, PaddedRoutes;
      IndexOfConcat(route, ',', rest);
      OnlyCommas(padding - 1);
      assert routes[..|route|] == route && routes[|route| + 1..] == rest;
    }
  }

  lemma PaddedRoutesClean(padding: nat)
    ensures Clean(PaddedRoutes(padding))
  {
    var routes := PaddedRoutes(padding);
    assert routes[|routes| - 1] == ',' || routes[|routes| - 1] == '0';
    assert routes[0] == '0';
  }

  lemma WitnessComplete(padding: nat)
    ensures AllNine(WITNESS_INTERFACE, WitnessPeer(padding))
  {
    PaddedRoutesClean(padding);
    PlainValues();
    PlainIsClean(WitnessKey());
    PlainIsClean(WITNESS_ADDRESS);
    PlainIsClean(WITNESS_DNS);
    PlainIsClean(WITNESS_ENDPOINT);
    PlainIsClean("1420");
    PlainIsClean("25");
    hide PaddedRoutes, Clean, Plain;
  }

  lemma HostHasNoBrackets()
    ensures TrimBrackets(WITNESS_HOST) == WITNESS_HOST
  {
  }

  lemma WitnessItems()
    ensures SplitCsv(WITNESS_ADDRESS) == [WITNESS_ADDRESS] && SplitCsv(WITNESS_DNS) == [WITNESS_DNS]
  {
    PlainValues();
    hide Plain, SplitCsv;
    OneItem(WITNESS_ADDRESS);
    OneItem(WITNESS_DNS);
  }

  lemma WitnessValid(checks: Checks, padding: nat)
    requires ReadsWitness(checks)
    ensures Invalid(checks, WITNESS_INTERFACE, WitnessPeer(padding)).None?
  {
    PaddedItems(padding);
    PaddedRoutesClean(padding);
    WitnessItems();
    HostHasNoBrackets();
    hide PaddedRoutes, SplitCsv, TrimBrackets, Trimmed;
  }

  lemma NameLength(key: Key)
    ensures |Name(key)| <= 19
    ensures key == AllowedIps ==> |Name(key)| == 10
  {
  }

  lemma {:induction false} ShortBlockWeight(values: Values, keys: seq<Key>)
    requires forall k :: k in values ==> |values[k]| <= 44
    ensures BlockWeight(values, keys) <= |keys| * 65
  {
    hide Name;
    if keys != [] {
      NameLength(keys[0]);
      ShortBlockWeight(values, keys[1..]);
    }
  }

  lemma WitnessLength(padding: nat)
    ensures |Compact(WITNESS_INTERFACE, WitnessPeer(padding))| == |Compact(WITNESS_INTERFACE, WitnessPeer(0))| + padding
    ensures |Compact(WITNESS_INTERFACE, WitnessPeer(0))| <= 1000
  {
    hide Name, BlockWeight, Compact, Distinct;
    WitnessTotal(padding);
    WitnessTotal(0);
    KeysDistinct();
    BlockWeightPut(WITNESS_BASE, PEER_KEYS, AllowedIps, PaddedRoutes(padding));
    BlockWeightPut(WITNESS_BASE, PEER_KEYS, AllowedIps, PaddedRoutes(0));
    ShortBlockWeight(WITNESS_BASE, PEER_KEYS);
    ShortBlockWeight(WITNESS_INTERFACE, INTERFACE_KEYS);
    NameLength(AllowedIps);
  }

  lemma WitnessTotal(padding: nat)
    ensures |Compact(WITNESS_INTERFACE, WitnessPeer(padding))|
         == 18 + BlockWeight(WITNESS_INTERFACE, INTERFACE_KEYS) + BlockWeight(WitnessPeer(padding), PEER_KEYS)
  {
    WitnessComplete(padding);
    hide PaddedRoutes, WitnessPeer, BlockWeight, Count, Canonical, Compact, Clean;
    CompactLength(WITNESS_INTERFACE, WitnessPeer(padding));
    CanonicalLength(WITNESS_INTERFACE, WitnessPeer(padding));
    CountAll(WITNESS_INTERFACE, INTERFACE_KEYS);
    CountAll(WitnessPeer(padding), PEER_KEYS);
  }

  /** Whatever else the decoders do, some genuine profile is accepted and its own canonical text is not. */
  lemma SomeAcceptedProfileIsUnstable(checks: Checks) returns (raw: string)
    requires ReadsWitness(checks)
    ensures ParseText(checks, raw).Ok?
    ensures ParseText(checks, ParseText(checks, raw).value.canonical) == Err(Size)
  {
    hide Compact, Canonical, AllNine, Invalid, Scan, ReadsWitness;
    WitnessLength(0);
    var padding := MAX_CONFIG_BYTES - |Compact(WITNESS_INTERFACE, WitnessPeer(0))|;
    raw := Compact(WITNESS_INTERFACE, WitnessPeer(padding));
    WitnessLength(padding);
    WitnessComplete(padding);
    WitnessValid(checks, padding);
    SizeLimitRejectsCanonical(checks, WITNESS_INTERFACE, WitnessPeer(padding));
  }
}
