/**
 The WireGuard profile parser and canonical printer (internal/vpnprofiles/wireguard.go).

 `ParseText` is the specification of one parse; method `Parse` is the line loop of the source and
 is proved to compute it.  Base64, CIDR, IP, host/port and integer decoding belong to Go's library:
 they are function-valued parameters, and every result holds for all of them.
 */
module WireGuard {
  import opened Text

  const MAX_CONFIG_BYTES: nat := 65536

  datatype Error =
    | Size | LineTooLong | Sections | ValueBeforeSection | NotAllowed | Duplicate
    | BadKey | Required | BadCidr | NoDefaultRoute | BadDns | BadEndpoint | BadPort | BadNumber

  datatype Section = NoSection | Interface | Peer

  datatype Key =
    | PrivateKey | Address | Dns | Mtu
    | PublicKey | PresharedKey | Endpoint | AllowedIps | PersistentKeepalive

  /** The directives of one section.  The source keys this map by the folded directive name. */
  type Values = map<Key, string>

  /** The variables of the line loop. */
  datatype State = State(section: Section, seen: set<Section>, iface: Values, peer: Values) {
    function Values(s: Section): Values {
      if s == Interface then iface else peer
    }

    function Put(s: Section, key: Key, value: string): State {
      if s == Interface then this.(iface := iface[key := value]) else this.(peer := peer[key := value])
    }
  }

  const START := State(NoSection, {}, map[], map[])

  datatype Parsed = Parsed(canonical: string, endpoint: string)

  /** The library decoders the validators call. */
  datatype Checks = Checks(
    wireGuardKey: string -> bool,
    cidr: string -> bool,
    ip: string -> bool,
    hostPort: string -> Option<(string, string)>,
    atoi: string -> Option<int>)

  const INTERFACE_KEYS := [PrivateKey, Address, Dns, Mtu]
  const PEER_KEYS := [PublicKey, PresharedKey, Endpoint, AllowedIps, PersistentKeepalive]

  /** The directives a section allows, in printing order. */
  function Keys(s: Section): seq<Key> {
    if s == Interface then INTERFACE_KEYS else PEER_KEYS
  }

  /** The directive name in the case the printer writes it. */
  function Name(key: Key): string {
    match key
    case PrivateKey => "PrivateKey"
    case Address => "Address"
    case Dns => "DNS"
    case Mtu => "MTU"
    case PublicKey => "PublicKey"
    case PresharedKey => "PresharedKey"
    case Endpoint => "Endpoint"
    case AllowedIps => "AllowedIPs"
    case PersistentKeepalive => "PersistentKeepalive"
  }

  /** The directive name as the source's tables spell it. */
  function FoldedName(key: Key): string {
    match key
    case PrivateKey => "privatekey"
    case Address => "address"
    case Dns => "dns"
    case Mtu => "mtu"
    case PublicKey => "publickey"
    case PresharedKey => "presharedkey"
    case Endpoint => "endpoint"
    case AllowedIps => "allowedips"
    case PersistentKeepalive => "persistentkeepalive"
  }

  /** The directive among `keys` that is spelled `text`, if any. */
  function FindKey(keys: seq<Key>, text: string): (r: Option<Key>)
    ensures r.Some? ==> r.value in keys && FoldedName(r.value) == text
    ensures r.None? ==> forall k :: k in keys ==> FoldedName(k) != text
  {
    if keys == [] then None
    else if FoldedName(keys[0]) == text then Some(keys[0])
    else FindKey(keys[1..], text)
  }

  function SectionNamed(name: string): Section {
    if name == "interface" then Interface else if name == "peer" then Peer else NoSection
  }

  /** One iteration of the line loop. */
  function Step(st: State, rawLine: string): Result<State, Error> {
    var line := TrimSpace(rawLine);
    if line == "" || line[0] == '#' || line[0] == ';' then Ok(st)
    else if line[0] == '[' && line[|line| - 1] == ']' then
      var section := SectionNamed(Lower(TrimSpace(line[1..|line| - 1])));
      if section == NoSection || section in st.seen then Err(Sections)
      else Ok(st.(section := section, seen := st.seen + {section}))
    else if st.section == NoSection then Err(ValueBeforeSection)
    else
      var cut := IndexOf(line, '=');
      var key := FindKey(Keys(st.section), Lower(TrimSpace(line[..cut])));
      var value := if cut < |line| then TrimSpace(line[cut + 1..]) else "";
      if cut == |line| || value == "" || key.None? then Err(NotAllowed)
      else if key.value in st.Values(st.section) then Err(Duplicate)
      else Ok(st.Put(st.section, key.value, value))
  }

  /** The line loop: `bufio.ScanLines` feeding `Step`. */
  function Scan(text: string, st: State): Result<State, Error>
    decreases |text|
  {
    if text == "" then Ok(st)
    else
      var end := IndexOf(text, '\n');
      var next :- Step(st, DropCarriageReturn(text[..end]));
      if end == |text| then Ok(next) else Scan(text[end + 1..], next)
  }

  function Get(values: Values, key: Key): string {
    if key in values then values[key] else ""
  }

  // ----- Validators -----

  /** The pieces of `raw` between commas, trimmed, without the empty ones. */
  function SplitCsv(raw: string): seq<string>
    decreases |raw|
  {
    var comma := IndexOf(raw, ',');
    var item := TrimSpace(raw[..comma]);
    (if item == "" then [] else [item]) + (if comma == |raw| then [] else SplitCsv(raw[comma + 1..]))
  }

  predicate ContainsDefaultRoute(raw: string) {
    "0.0.0.0/0" in SplitCsv(raw)
  }

  predicate IsBracket(c: char) {
    c == '[' || c == ']'
  }

  /** `strings.Trim(host, "[]")`. */
  function TrimBrackets(host: string): string
    decreases |host|
  {
    if host == "" then ""
    else if IsBracket(host[0]) then TrimBrackets(host[1..])
    else if IsBracket(host[|host| - 1]) then TrimBrackets(host[..|host| - 1])
    else host
  }

  predicate NumberWithin(checks: Checks, raw: string, minimum: int, maximum: int) {
    raw == "" || (checks.atoi(raw).Some? && minimum <= checks.atoi(raw).value <= maximum)
  }

  /** The first failing validator in source order, or None. */
  function Invalid(checks: Checks, iface: Values, peer: Values): Option<Error> {
    var preshared := Get(peer, PresharedKey);
    var address := Get(iface, Address);
    var routes := Get(peer, AllowedIps);
    var dns := Get(iface, Dns);
    var endpoint := checks.hostPort(Get(peer, Endpoint));
    if !checks.wireGuardKey(Get(iface, PrivateKey)) then Some(BadKey)
    else if !checks.wireGuardKey(Get(peer, PublicKey)) then Some(BadKey)
    else if preshared != "" && !checks.wireGuardKey(preshared) then Some(BadKey)
    else if address == "" then Some(Required)
    else if exists v :: v in SplitCsv(address) && !checks.cidr(v) then Some(BadCidr)
    else if routes == "" then Some(Required)
    else if exists v :: v in SplitCsv(routes) && !checks.cidr(v) then Some(BadCidr)
    else if !ContainsDefaultRoute(routes) then Some(NoDefaultRoute)
    else if dns != "" && exists v :: v in SplitCsv(dns) && !checks.ip(v) then Some(BadDns)
    else if endpoint.None? || !checks.ip(TrimBrackets(endpoint.value.0)) then Some(BadEndpoint)
    else if checks.atoi(endpoint.value.1).None? || !(1 <= checks.atoi(endpoint.value.1).value <= 65535) then
      Some(BadPort)
    else if !NumberWithin(checks, Get(iface, Mtu), 576, 1500) then Some(BadNumber)
    else if !NumberWithin(checks, Get(peer, PersistentKeepalive), 0, 65535) then Some(BadNumber)
    else None
  }

  // ----- Printer -----

  /** One directive per non-empty value, with `separator` between name and value. */
  function PrintKeys(values: Values, keys: seq<Key>, separator: string): string {
    if keys == [] then "" else PrintKey(values, keys[0], separator) + PrintKeys(values, keys[1..], separator)
  }

  function PrintKey(values: Values, key: Key, separator: string): string {
    if Get(values, key) == "" then "" else Name(key) + separator + Get(values, key) + "\n"
  }

  function Canonical(iface: Values, peer: Values): string {
    "[Interface]\n" + PrintKeys(iface, INTERFACE_KEYS, " = ") +
    "\n[Peer]\n" + PrintKeys(peer, PEER_KEYS, " = ")
  }

  // ----- One parse -----

  /** The outcome of the line loop over a text that passed the size check. */
  function ReadSections(raw: string): Result<State, Error> {
    // A single line that fills the scanner's 64 KiB buffer is reported before any line is seen.
    if |raw| >= MAX_CONFIG_BYTES && '\n' !in raw then Err(LineTooLong) else Scan(raw, START)
  }

  function ParseText(checks: Checks, raw: string): Result<Parsed, Error> {
    if |raw| == 0 || |raw| > MAX_CONFIG_BYTES then Err(Size)
    else
      var st :- ReadSections(raw);
      if Interface !in st.seen || Peer !in st.seen then Err(Sections)
      else
        match Invalid(checks, st.iface, st.peer)
        case Some(error) => Err(error)
        case None => Ok(Parsed(Canonical(st.iface, st.peer), Get(st.peer, Endpoint)))
  }

  // ----- The source's loops -----

  method WriteKeys(output: string, values: Values, keys: seq<Key>) returns (result: string)
    ensures result == output + PrintKeys(values, keys, " = ")
  {
    hide PrintKeys;
    result := output;
    assert keys[0..] == keys;
    for i := 0 to |keys|
      invariant result + PrintKeys(values, keys[i..], " = ") == output + PrintKeys(values, keys, " = ")
    {
      PrintKeysCons(values, keys, i, " = ");
      ghost var before := result;
      if Get(values, keys[i]) != "" {
        result := result + (Name(keys[i]) + " = " + Get(values, keys[i]) + "\n");
      }
      assert result == before + PrintKey(values, keys[i], " = ");
      hide PrintKey;
    }
    assert keys[|keys|..] == [];
    PrintNoKeys(values, " = ");
  }

  lemma PrintKeysCons(values: Values, keys: seq<Key>, i: nat, separator: string)
    requires i < |keys|
    ensures PrintKeys(values, keys[i..], separator)
         == PrintKey(values, keys[i], separator) + PrintKeys(values, keys[i + 1..], separator)
  {
    hide PrintKey;
    assert keys[i..][1..] == keys[i + 1..];
  }

  lemma PrintNoKeys(values: Values, separator: string)
    ensures PrintKeys(values, [], separator) == ""
  {
  }

  method WriteCanonical(iface: Values, peer: Values) returns (output: string)
    ensures output == Canonical(iface, peer)
  {
    output := "[Interface]\n";
    output := WriteKeys(output, iface, INTERFACE_KEYS);
    output := output + "\n[Peer]\n";
    output := WriteKeys(output, peer, PEER_KEYS);
  }

  method Parse(checks: Checks, raw: string) returns (result: Result<Parsed, Error>)
    ensures result == ParseText(checks, raw)
  {
    if |raw| == 0 || |raw| > MAX_CONFIG_BYTES {
      return Err(Size);
    }
    if |raw| >= MAX_CONFIG_BYTES && '\n' !in raw {
      return Err(LineTooLong);
    }
    var st, rest := START, raw;
    while rest != ""
      invariant Scan(raw, START) == Scan(rest, st)
      decreases |rest|
    {
      var end := IndexOf(rest, '\n');
      st :- Step(st, DropCarriageReturn(rest[..end]));
      rest := if end == |rest| then "" else rest[end + 1..];
    }
    if Interface !in st.seen || Peer !in st.seen {
      return Err(Sections);
    }
    match Invalid(checks, st.iface, st.peer) {
      case Some(error) =>
        return Err(error);
      case None =>
        var canonical := WriteCanonical(st.iface, st.peer);
        return Ok(Parsed(canonical, Get(st.peer, Endpoint)));
    }
  }
}
