/**
 What an accepted WireGuard profile must say (internal/vpnprofiles/wireguard.go): the rules on its
 values, stated by position in the text instead of by the functions that check them, and which error
 a rejected profile gets.
 */
module WireGuardRules {
  import opened Text
  import opened WireGuard
  import opened WireGuardGrammar

  // ----- Comma-separated values, by position -----

  /** `raw[i..j]` lies between two commas, or a comma and an end. */
  predicate Between(raw: string, i: nat, j: nat) {
    && i <= j <= |raw| && ',' !in raw[i..j]
    && (i == 0 || raw[i - 1] == ',') && (j == |raw| || raw[j] == ',')
  }

  /** `v` is what trimming leaves of such a stretch. */
  predicate IsItemAt(raw: string, v: string, i: nat, j: nat) {
    Between(raw, i, j) && v == TrimSpace(raw[i..j]) && v != ""
  }

  ghost predicate IsItem(raw: string, v: string) {
    exists i: nat, j: nat :: IsItemAt(raw, v, i, j)
  }

  /** The first stretch ends at the first comma; the others are those of the rest. */
  lemma ItemsSplit(raw: string, comma: nat, v: string, i: nat, j: nat)
    requires comma < |raw| && raw[comma] == ',' && ',' !in raw[..comma]
    ensures i <= comma ==> (IsItemAt(raw, v, i, j) <==> i == 0 && j == comma && v == TrimSpace(raw[..comma]) && v != "")
    ensures i > comma ==>
              (IsItemAt(raw, v, i, j) <==> j > comma && IsItemAt(raw[comma + 1..], v, i - comma - 1, j - comma - 1))
  {
    hide TrimSpace, Trimmed;
    var rest := raw[comma + 1..];
    if i <= j <= |raw| {
      if i <= comma {
        FirstStretch(raw, comma, i, j);
        assert raw[..comma] == raw[0..comma];
      } else {
        assert raw[i..j] == rest[i - comma - 1..j - comma - 1];
      }
    }
  }

  lemma FirstStretch(raw: string, comma: nat, i: nat, j: nat)
    requires comma < |raw| && raw[comma] == ',' && ',' !in raw[..comma] && i <= comma && i <= j <= |raw|
    ensures Between(raw, i, j) <==> i == 0 && j == comma
  {
    assert forall k :: 0 <= k < comma ==> raw[..comma][k] == raw[k];
    if j > comma {
      assert raw[i..j][comma - i] == ',';
    }
    assert forall k :: 0 <= k < j - i ==> raw[i..j][k] == raw[i + k];
  }

  /** Splitting yields exactly the items. */
  lemma {:induction false} SplitCsvItems(raw: string, v: string)
    ensures v in SplitCsv(raw) <==> IsItem(raw, v)
    decreases |raw|
  {
    hide TrimSpace, Trimmed;
    var comma := IndexOf(raw, ',');
    if comma == |raw| {
      OneStretch(raw, v);
    } else {
      var rest := raw[comma + 1..];
      SplitCsvItems(rest, v);
      hide IsItemAt, IndexOf;
      SplitCsvNext(raw, comma, v);
      forall i: nat, j: nat
        ensures i <= comma ==>
                  (IsItemAt(raw, v, i, j) <==> i == 0 && j == comma && v == TrimSpace(raw[..comma]) && v != "")
        ensures i > comma ==>
                  (IsItemAt(raw, v, i, j) <==> j > comma && IsItemAt(rest, v, i - comma - 1, j - comma - 1))
      {
        ItemsSplit(raw, comma, v, i, j);
      }
      ItemsJoin(raw, rest, comma, v);
    }
  }

  lemma SplitCsvNext(raw: string, comma: nat, v: string)
    requires comma == IndexOf(raw, ',') < |raw|
    ensures v in SplitCsv(raw) <==> (v == TrimSpace(raw[..comma]) && v != "") || v in SplitCsv(raw[comma + 1..])
    ensures raw[comma] == ',' && ',' !in raw[..comma]
  {
    SplitCsvStep(raw);
    hide *;
    OneOrMore(TrimSpace(raw[..comma]), SplitCsv(raw[comma + 1..]), v);
    NotBefore(raw, comma);
  }

  lemma NotBefore(raw: string, comma: nat)
    requires comma == IndexOf(raw, ',') < |raw|
    ensures raw[comma] == ',' && ',' !in raw[..comma]
  {
  }

  lemma SplitCsvStep(raw: string)
    ensures
      var comma := IndexOf(raw, ',');
      var item := TrimSpace(raw[..comma]);
      SplitCsv(raw) ==
      (if item == "" then [] else [item]) + if comma == |raw| then [] else SplitCsv(raw[comma + 1..])
  {
    hide TrimSpace, Trimmed, IndexOf;
  }

  lemma OneOrMore(item: string, rest: seq<string>, v: string)
    ensures v in (if item == "" then [] else [item]) + rest <==> (v == item && v != "") || v in rest
  {
  }

  lemma ItemsJoin(raw: string, rest: string, comma: nat, v: string)
    requires comma <= |raw|
    requires forall i: nat, j: nat ::
               && (i <= comma ==>
                     (IsItemAt(raw, v, i, j) <==> i == 0 && j == comma && v == TrimSpace(raw[..comma]) && v != ""))
               && (i > comma ==>
                     (IsItemAt(raw, v, i, j) <==> j > comma && IsItemAt(rest, v, i - comma - 1, j - comma - 1)))
    ensures IsItem(raw, v) <==> (v == TrimSpace(raw[..comma]) && v != "") || IsItem(rest, v)
  {
    hide IsItemAt, TrimSpace, Trimmed;
    if v == TrimSpace(raw[..comma]) && v != "" {
      assert IsItemAt(raw, v, 0, comma);
    }
    if IsItem(rest, v) {
      var i: nat, j: nat :| IsItemAt(rest, v, i, j);
      assert IsItemAt(raw, v, i + comma + 1, j + comma + 1);
    }
    if IsItem(raw, v) && !(v == TrimSpace(raw[..comma]) && v != "") {
      var i: nat, j: nat :| IsItemAt(raw, v, i, j);
      assert i > comma && IsItemAt(rest, v, i - comma - 1, j - comma - 1);
    }
  }

  lemma OneStretch(raw: string, v: string)
    requires IndexOf(raw, ',') == |raw|
    ensures v in SplitCsv(raw) <==> IsItem(raw, v)
  {
    hide TrimSpace, Trimmed;
    assert raw[..|raw|] == raw[0..|raw|] == raw;
    if v in SplitCsv(raw) {
      assert IsItemAt(raw, v, 0, |raw|);
    }
  }

  predicate AllBrackets(s: string) {
    forall i :: 0 <= i < |s| ==> s[i] == '[' || s[i] == ']'
  }

  /** Trimming a host takes off the brackets at both ends, and nothing else. */
  lemma {:induction false} TrimBracketsExact(host: string) returns (before: string, after: string)
    ensures host == before + TrimBrackets(host) + after && AllBrackets(before) && AllBrackets(after)
    ensures
      var r := TrimBrackets(host);
      r != "" ==> r[0] !in {'[', ']'} && r[|r| - 1] !in {'[', ']'}
    decreases |host|
  {
    before, after := "", "";
    if host != "" && IsBracket(host[0]) {
      before, after := TrimBracketsExact(host[1..]);
      assert host == [host[0]] + before + TrimBrackets(host) + after;
      before := [host[0]] + before;
    } else if host != "" && IsBracket(host[|host| - 1]) {
      before, after := TrimBracketsExact(host[..|host| - 1]);
      assert host == before + TrimBrackets(host) + (after + [host[|host| - 1]]);
      after := after + [host[|host| - 1]];
    }
  }

  // ----- The rules -----

  const RULES: nat := 13

  ghost predicate AllItems(raw: string, accepted: string -> bool) {
    forall v :: IsItem(raw, v) ==> accepted(v)
  }

  predicate NumberIn(checks: Checks, raw: string, low: int, high: int) {
    match checks.atoi(raw)
    case None => false
    case Some(n) => low <= n <= high
  }

  ghost predicate EndpointIs(checks: Checks, raw: string, accepted: (string, string) -> bool) {
    match checks.hostPort(raw)
    case None => false
    case Some((host, port)) => accepted(host, port)
  }

  /** The rules on the values of a profile, in the order in which they are checked. */
  ghost predicate Rule(checks: Checks, iface: Values, peer: Values, i: nat) {
    var preshared, dns := Get(peer, PresharedKey), Get(iface, Dns);
    var mtu, keepalive := Get(iface, Mtu), Get(peer, PersistentKeepalive);
    match i
    case 0 => checks.wireGuardKey(Get(iface, PrivateKey))
    case 1 => checks.wireGuardKey(Get(peer, PublicKey))
    case 2 => preshared == "" || checks.wireGuardKey(preshared)
    case 3 => Get(iface, Address) != ""
    case 4 => AllItems(Get(iface, Address), checks.cidr)
    case 5 => Get(peer, AllowedIps) != ""
    case 6 => AllItems(Get(peer, AllowedIps), checks.cidr)
    case 7 => IsItem(Get(peer, AllowedIps), "0.0.0.0/0")
    case 8 => AllItems(dns, checks.ip)
    case 9 => EndpointIs(checks, Get(peer, Endpoint), (host, _) => checks.ip(TrimBrackets(host)))
    case 10 => EndpointIs(checks, Get(peer, Endpoint), (_, port) => NumberIn(checks, port, 1, 65535))
    case 11 => mtu == "" || NumberIn(checks, mtu, 576, 1500)
    case 12 => keepalive == "" || NumberIn(checks, keepalive, 0, 65535)
    case _ => true
  }

  function RuleError(i: nat): Error {
    if i <= 2 then BadKey
    else if i == 3 || i == 5 then Required
    else if i == 4 || i == 6 then BadCidr
    else if i == 7 then NoDefaultRoute
    else if i == 8 then BadDns
    else if i == 9 then BadEndpoint
    else if i == 10 then BadPort
    else BadNumber
  }

  /** The first rule that is broken. */
  ghost predicate FirstBroken(checks: Checks, iface: Values, peer: Values, i: nat) {
    i < RULES && !Rule(checks, iface, peer, i) && forall j :: 0 <= j < i ==> Rule(checks, iface, peer, j)
  }

  lemma AllItemsSplit(raw: string, accepted: string -> bool)
    ensures AllItems(raw, accepted) <==> forall v :: v in SplitCsv(raw) ==> accepted(v)
  {
    hide SplitCsv, IsItem;
    forall v
      ensures v in SplitCsv(raw) <==> IsItem(raw, v)
    {
      SplitCsvItems(raw, v);
    }
  }

  lemma NoItems(accepted: string -> bool)
    ensures AllItems("", accepted)
  {
    AllItemsSplit("", accepted);
    assert SplitCsv("") == [];
  }

  /** The validators, on the rules that need splitting. */
  lemma RulesSplit(checks: Checks, iface: Values, peer: Values)
    ensures
      var address, routes, dns := Get(iface, Address), Get(peer, AllowedIps), Get(iface, Dns);
      && (Rule(checks, iface, peer, 4) <==> !exists v :: v in SplitCsv(address) && !checks.cidr(v))
      && (Rule(checks, iface, peer, 6) <==> !exists v :: v in SplitCsv(routes) && !checks.cidr(v))
      && (Rule(checks, iface, peer, 7) <==> ContainsDefaultRoute(routes))
      && (Rule(checks, iface, peer, 8) <==> !(dns != "" && exists v :: v in SplitCsv(dns) && !checks.ip(v)))
  {
    AllItemsSplit(Get(iface, Address), checks.cidr);
    AllItemsSplit(Get(peer, AllowedIps), checks.cidr);
    SplitCsvItems(Get(peer, AllowedIps), "0.0.0.0/0");
    AllItemsSplit(Get(iface, Dns), checks.ip);
    NoItems(checks.ip);
    hide SplitCsv, IsItem, AllItems, Get;
  }

  /** The validators find no fault exactly when every rule holds, and otherwise report the first broken one. */
  lemma ValidatorsDecide(checks: Checks, iface: Values, peer: Values)
    ensures Invalid(checks, iface, peer).None? <==> forall i: nat :: i < RULES ==> Rule(checks, iface, peer, i)
    ensures Invalid(checks, iface, peer).Some? ==>
              exists i :: FirstBroken(checks, iface, peer, i) && Invalid(checks, iface, peer).value == RuleError(i)
  {
    var i := InvalidAt(checks, iface, peer);
    hide Rule, Invalid;
  }

  /** The validators' own tests, rule by rule. */
  lemma RulesPlain(checks: Checks, iface: Values, peer: Values)
    ensures
      var preshared, endpoint := Get(peer, PresharedKey), checks.hostPort(Get(peer, Endpoint));
      && (Rule(checks, iface, peer, 0) <==> checks.wireGuardKey(Get(iface, PrivateKey)))
      && (Rule(checks, iface, peer, 1) <==> checks.wireGuardKey(Get(peer, PublicKey)))
      && (Rule(checks, iface, peer, 2) <==> !(preshared != "" && !checks.wireGuardKey(preshared)))
      && (Rule(checks, iface, peer, 3) <==> Get(iface, Address) != "")
      && (Rule(checks, iface, peer, 5) <==> Get(peer, AllowedIps) != "")
      && (Rule(checks, iface, peer, 9) <==> !(endpoint.None? || !checks.ip(TrimBrackets(endpoint.value.0))))
      && (endpoint.Some? ==>
            (Rule(checks, iface, peer, 10) <==>
             !(checks.atoi(endpoint.value.1).None? || !(1 <= checks.atoi(endpoint.value.1).value <= 65535))))
      && (Rule(checks, iface, peer, 11) <==> NumberWithin(checks, Get(iface, Mtu), 576, 1500))
      && (Rule(checks, iface, peer, 12) <==> NumberWithin(checks, Get(peer, PersistentKeepalive), 0, 65535))
  {
    hide SplitCsv, IsItem, AllItems, Get, TrimBrackets;
  }

  lemma InvalidFirst(checks: Checks, iface: Values, peer: Values)
    ensures
      Invalid(checks, iface, peer) ==
      if !Rule(checks, iface, peer, 0) then Some(BadKey)
      else if !Rule(checks, iface, peer, 1) then Some(BadKey)
      else if !Rule(checks, iface, peer, 2) then Some(BadKey)
      else if !Rule(checks, iface, peer, 3) then Some(Required)
      else if !Rule(checks, iface, peer, 4) then Some(BadCidr)
      else if !Rule(checks, iface, peer, 5) then Some(Required)
      else if !Rule(checks, iface, peer, 6) then Some(BadCidr)
      else if !Rule(checks, iface, peer, 7) then Some(NoDefaultRoute)
      else if !Rule(checks, iface, peer, 8) then Some(BadDns)
      else if !Rule(checks, iface, peer, 9) then Some(BadEndpoint)
      else if !Rule(checks, iface, peer, 10) then Some(BadPort)
      else if !Rule(checks, iface, peer, 11) then Some(BadNumber)
      else if !Rule(checks, iface, peer, 12) then Some(BadNumber)
      else None
  {
    RulesSplit(checks, iface, peer);
    RulesPlain(checks, iface, peer);
    hide Rule, SplitCsv, IsItem, AllItems, Get, ContainsDefaultRoute, NumberWithin, TrimBrackets;
  }

  /** The number of rules that hold before the first broken one. */
  ghost function KeptRules(checks: Checks, iface: Values, peer: Values, i: nat): (k: nat)
    requires i <= RULES
    ensures i <= k <= RULES && forall j :: i <= j < k ==> Rule(checks, iface, peer, j)
    ensures k < RULES ==> !Rule(checks, iface, peer, k)
    decreases RULES - i
  {
    if i == RULES || !Rule(checks, iface, peer, i) then i else KeptRules(checks, iface, peer, i + 1)
  }

  lemma InvalidAt(checks: Checks, iface: Values, peer: Values) returns (i: nat)
    ensures i <= RULES && forall j :: 0 <= j < i ==> Rule(checks, iface, peer, j)
    ensures Invalid(checks, iface, peer) == if i == RULES then None else Some(RuleError(i))
    ensures i < RULES ==> !Rule(checks, iface, peer, i)
  {
    i := KeptRules(checks, iface, peer, 0);
    InvalidFirst(checks, iface, peer);
    hide Rule, Invalid, KeptRules;
  }

  // ----- The canonical text -----

  function Line(name: string, value: string): string {
    if value == "" then "" else name + " = " + value + "\n"
  }

  /** The canonical text, line by line: fixed order, one directive a line, empty ones left out. */
  lemma CanonicalLayout(iface: Values, peer: Values)
    ensures Canonical(iface, peer) ==
            "[Interface]\n"
            + (Line("PrivateKey", Get(iface, PrivateKey)) + (Line("Address", Get(iface, Address))
               + (Line("DNS", Get(iface, Dns)) + Line("MTU", Get(iface, Mtu)))))
            + "\n[Peer]\n"
            + (Line("PublicKey", Get(peer, PublicKey)) + (Line("PresharedKey", Get(peer, PresharedKey))
               + (Line("Endpoint", Get(peer, Endpoint)) + (Line("AllowedIPs", Get(peer, AllowedIps))
                  + Line("PersistentKeepalive", Get(peer, PersistentKeepalive))))))
  {
    hide Get, PrintKey;
    PrintedFour(iface, INTERFACE_KEYS);
    PrintedFive(peer, PEER_KEYS);
    forall values: Values, key
      ensures PrintKey(values, key, " = ") == Line(Name(key), Get(values, key))
    {
      PrintedLine(values, key);
    }
    hide PrintKeys, Line;
  }

  lemma PrintedLine(values: Values, key: Key)
    ensures PrintKey(values, key, " = ") == Line(Name(key), Get(values, key))
  {
    hide Get, Name;
  }

  lemma PrintedFour(values: Values, keys: seq<Key>)
    requires |keys| == 4
    ensures PrintKeys(values, keys, " = ") ==
            PrintKey(values, keys[0], " = ") + (PrintKey(values, keys[1], " = ")
            + (PrintKey(values, keys[2], " = ") + PrintKey(values, keys[3], " = ")))
  {
    hide PrintKey;
    PrintKeysCons(values, keys, 2, " = ");
    PrintKeysCons(values, keys, 1, " = ");
    PrintKeysCons(values, keys, 0, " = ");
    PrintKeysCons(values, keys, 3, " = ");
    assert keys[0..] == keys && keys[4..] == [];
    PrintNoKeys(values, " = ");
    hide PrintKeys;
  }

  lemma PrintedFive(values: Values, keys: seq<Key>)
    requires |keys| == 5
    ensures PrintKeys(values, keys, " = ") ==
            PrintKey(values, keys[0], " = ") + (PrintKey(values, keys[1], " = ") + (PrintKey(values, keys[2], " = ")
            + (PrintKey(values, keys[3], " = ") + PrintKey(values, keys[4], " = "))))
  {
    hide PrintKey;
    PrintKeysCons(values, keys, 0, " = ");
    assert keys[0..] == keys;
    PrintedFour(values, keys[1..]);
    hide PrintKeys;
  }

  // ----- Accepted and rejected -----

  /** Accepted means: the right size, grammatical, both sections there, and every rule on the values kept. */
  lemma AcceptedExactly(checks: Checks, raw: string)
    ensures ParseText(checks, raw).Ok? <==>
            && 0 < |raw| <= MAX_CONFIG_BYTES && (|raw| == MAX_CONFIG_BYTES ==> '\n' in raw)
            && Grammatical(Meanings(raw))
            && Header(Interface) in Meanings(raw) && Header(Peer) in Meanings(raw)
            && exists st :: Denotes(Meanings(raw), st)
                            && forall i: nat :: i < RULES ==> Rule(checks, st.iface, st.peer, i)
  {
    AcceptedProfiles(checks, raw);
    forall st | Denotes(Meanings(raw), st)
      ensures Complete(checks, st) <==>
              && Header(Interface) in Meanings(raw) && Header(Peer) in Meanings(raw)
              && forall i: nat :: i < RULES ==> Rule(checks, st.iface, st.peer, i)
    {
      ValidatorsDecide(checks, st.iface, st.peer);
      SeenMeans(Meanings(raw), st);
      hide Denotes, Rule, Invalid;
    }
    hide Denotes, Rule, Invalid, Meanings, Grammatical, ParseText, Complete;
  }

  lemma SeenMeans(ms: seq<Meaning>, st: State)
    requires Denotes(ms, st)
    ensures forall s :: s in st.seen <==> Header(s) in ms
  {
    hide Sets, SectionAt;
  }

  /** Which error a rejected profile gets. */
  lemma RejectedBecause(checks: Checks, raw: string)
    requires ParseText(checks, raw).Err?
    ensures
      var ms, error := Meanings(raw), ParseText(checks, raw).error;
      if |raw| == 0 || |raw| > MAX_CONFIG_BYTES then error == Size
      else if |raw| == MAX_CONFIG_BYTES && '\n' !in raw then error == LineTooLong
      else if !Grammatical(ms) then exists i :: FirstBad(ms, i) && error == LineError(ms, i)
      else if Header(Interface) !in ms || Header(Peer) !in ms then error == Sections
      else exists st, i :: Denotes(ms, st) && FirstBroken(checks, st.iface, st.peer, i) && error == RuleError(i)
  {
    ScanAcceptsGrammar(raw);
    hide Meanings, Scan, Grammatical, FirstBad, LineError, Denotes, Invalid, FirstBroken, RuleError, Canonical;
    if Scan(raw, START).Ok? {
      var st := Scan(raw, START).value;
      SeenMeans(Meanings(raw), st);
      ValidatorsDecide(checks, st.iface, st.peer);
    }
  }
}
