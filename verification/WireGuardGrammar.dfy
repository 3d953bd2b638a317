/**
 What a profile text may say, without reference to the line loop: a classification of each line and
 a condition on the sequence of classified lines.  The line loop accepts exactly the grammatical
 texts and builds exactly the section map they denote.
 */
module WireGuardGrammar {
  import opened Text
  import opened WireGuard

  datatype Meaning = Blank | Header(section: Section) | Directive(name: string, value: string) | Malformed

  function Classify(rawLine: string): Meaning {
    var line := TrimSpace(rawLine);
    if line == "" || line[0] == '#' || line[0] == ';' then Blank
    else if line[0] == '[' && line[|line| - 1] == ']' then Header(SectionNamed(Lower(TrimSpace(line[1..|line| - 1]))))
    else
      var cut := IndexOf(line, '=');
      if cut == |line| || TrimSpace(line[cut + 1..]) == "" then Malformed
      else Directive(Lower(TrimSpace(line[..cut])), TrimSpace(line[cut + 1..]))
  }

  /** The meanings of the lines of a text. */
  function Meanings(text: string): seq<Meaning>
    decreases |text|
  {
    if text == "" then []
    else
      var end := IndexOf(text, '\n');
      [Classify(DropCarriageReturn(text[..end]))] + if end == |text| then [] else Meanings(text[end + 1..])
  }

  /** The section of the last header before line `i`. */
  function SectionAt(ms: seq<Meaning>, i: nat): Section
    requires i <= |ms|
  {
    if i == 0 then NoSection else if ms[i - 1].Header? then ms[i - 1].section else SectionAt(ms, i - 1)
  }

  /** The allowed directive that line `i` sets in its section, if it does. */
  function KeyAt(ms: seq<Meaning>, i: nat): Option<Key>
    requires i < |ms|
  {
    if ms[i].Directive? && SectionAt(ms, i) != NoSection then FindKey(Keys(SectionAt(ms, i)), ms[i].name) else None
  }

  /** Line `i` gives `key` its value in section `s`. */
  predicate Sets(ms: seq<Meaning>, i: nat, s: Section, key: Key) {
    i < |ms| && SectionAt(ms, i) == s && KeyAt(ms, i) == Some(key)
  }

  predicate LineOk(ms: seq<Meaning>, i: nat)
    requires i < |ms|
  {
    match ms[i]
    case Blank => true
    case Malformed => false
    case Header(s) => s != NoSection && forall j :: 0 <= j < i ==> ms[j] != ms[i]
    case Directive(_, _) =>
      && KeyAt(ms, i).Some?
      && forall j :: 0 <= j < i ==> !Sets(ms, j, SectionAt(ms, i), KeyAt(ms, i).value)
  }

  /** Known sections, each opened once; allowed directives only, inside a section, each set once in it. */
  predicate Grammatical(ms: seq<Meaning>) {
    forall i :: 0 <= i < |ms| ==> LineOk(ms, i)
  }

  /** Why a line that is not acceptable is refused. */
  function LineError(ms: seq<Meaning>, i: nat): Error
    requires i < |ms|
  {
    if ms[i].Header? then Sections
    else if SectionAt(ms, i) == NoSection then ValueBeforeSection
    else if KeyAt(ms, i).None? then NotAllowed
    else Duplicate
  }

  /** The first line that is not acceptable. */
  ghost predicate FirstBad(ms: seq<Meaning>, i: nat) {
    i < |ms| && !LineOk(ms, i) && forall j :: 0 <= j < i ==> LineOk(ms, j)
  }

  /** The state the lines leave: the open section, the sections seen, and who set what. */
  ghost predicate Denotes(ms: seq<Meaning>, st: State) {
    && st.section == SectionAt(ms, |ms|)
    && (forall s :: s in st.seen <==> Header(s) in ms)
    && (forall key :: key in st.iface ==> exists i: nat :: Sets(ms, i, Interface, key))
    && (forall key :: key in st.peer ==> exists i: nat :: Sets(ms, i, Peer, key))
    && (forall i: nat, s, key :: Sets(ms, i, s, key) ==> key in st.Values(s) && st.Values(s)[key] == ms[i].value)
  }

  // ----- Looking at a prefix -----

  lemma {:induction false} SectionAtPrefix(ms: seq<Meaning>, more: seq<Meaning>, i: nat)
    requires i <= |ms|
    ensures SectionAt(ms + more, i) == SectionAt(ms, i)
  {
    if i > 0 {
      SectionAtPrefix(ms, more, i - 1);
    }
  }

  lemma KeyAtPrefix(ms: seq<Meaning>, more: seq<Meaning>, i: nat)
    requires i < |ms|
    ensures SectionAt(ms + more, i) == SectionAt(ms, i) && KeyAt(ms + more, i) == KeyAt(ms, i)
  {
    hide SectionAt, FindKey;
    SectionAtPrefix(ms, more, i);
  }

  lemma SetsPrefix(ms: seq<Meaning>, more: seq<Meaning>, i: nat, s: Section, key: Key)
    requires i < |ms|
    ensures Sets(ms + more, i, s, key) <==> Sets(ms, i, s, key)
  {
    hide SectionAt, KeyAt;
    KeyAtPrefix(ms, more, i);
  }

  lemma LineOkPrefix(ms: seq<Meaning>, more: seq<Meaning>, i: nat)
    requires i < |ms|
    ensures LineOk(ms + more, i) <==> LineOk(ms, i)
  {
    hide SectionAt, KeyAt, Sets;
    KeyAtPrefix(ms, more, i);
    forall j, s, key | 0 <= j < i
      ensures Sets(ms + more, j, s, key) <==> Sets(ms, j, s, key)
    {
      SetsPrefix(ms, more, j, s, key);
    }
    assert forall j {:trigger ms[j]} :: 0 <= j < |ms| ==> (ms + more)[j] == ms[j];
  }

  lemma FirstBadPrefix(done: seq<Meaning>, m: Meaning, rest: seq<Meaning>)
    requires Grammatical(done) && !LineOk(done + [m], |done|)
    ensures FirstBad(done + [m] + rest, |done|)
    ensures LineError(done + [m] + rest, |done|) == LineError(done + [m], |done|)
  {
    hide LineOk, KeyAt, SectionAt;
    var all := done + [m] + rest;
    LineOkPrefix(done + [m], rest, |done|);
    KeyAtPrefix(done + [m], rest, |done|);
    forall j | 0 <= j < |done|
      ensures LineOk(all, j)
    {
      LineOkPrefix(done + [m], rest, j);
      LineOkPrefix(done, [m], j);
    }
  }

  lemma GrammaticalPrefix(ms: seq<Meaning>, more: seq<Meaning>)
    ensures Grammatical(ms + more) ==> Grammatical(ms)
    ensures |more| == 1 ==> (Grammatical(ms + more) <==> Grammatical(ms) && LineOk(ms + more, |ms|))
  {
    hide LineOk;
    forall i | 0 <= i < |ms|
      ensures LineOk(ms + more, i) <==> LineOk(ms, i)
    {
      LineOkPrefix(ms, more, i);
    }
  }

  // ----- One line -----

  /** `Step`, as a function of the line's meaning. */
  function StepMeaning(st: State, m: Meaning): Result<State, Error> {
    match m
    case Blank => Ok(st)
    case Malformed => Err(if st.section == NoSection then ValueBeforeSection else NotAllowed)
    case Header(s) =>
      if s == NoSection || s in st.seen then Err(Sections) else Ok(st.(section := s, seen := st.seen + {s}))
    case Directive(name, value) =>
      if st.section == NoSection then Err(ValueBeforeSection)
      else
        var key := FindKey(Keys(st.section), name);
        if key.None? then Err(NotAllowed)
        else if key.value in st.Values(st.section) then Err(Duplicate)
        else Ok(st.Put(st.section, key.value, value))
  }

  lemma StepIsMeaning(st: State, line: string)
    ensures Step(st, line) == StepMeaning(st, Classify(line))
  {
    hide TrimSpace, Trimmed, Lower, SectionNamed, IndexOf, FindKey;
  }

  lemma NewSection(ms: seq<Meaning>, m: Meaning)
    ensures SectionAt(ms + [m], |ms|) == SectionAt(ms, |ms|)
    ensures SectionAt(ms + [m], |ms| + 1) == if m.Header? then m.section else SectionAt(ms, |ms|)
  {
    SectionAtPrefix(ms, [m], |ms|);
  }

  lemma NewLineOk(ms: seq<Meaning>, st: State, m: Meaning)
    requires Denotes(ms, st)
    ensures LineOk(ms + [m], |ms|) <==> StepMeaning(st, m).Ok?
    ensures StepMeaning(st, m).Err? ==> StepMeaning(st, m).error == LineError(ms + [m], |ms|)
  {
    hide SectionAt, FindKey, Keys;
    var all := ms + [m];
    NewSection(ms, m);
    forall j, s, key | 0 <= j < |ms|
      ensures Sets(all, j, s, key) <==> Sets(ms, j, s, key)
    {
      SetsPrefix(ms, [m], j, s, key);
    }
    assert forall j {:trigger ms[j]} :: 0 <= j < |ms| ==> all[j] == ms[j];
    if m.Directive? && KeyAt(all, |ms|).Some? {
      SetBefore(ms, st, st.section, KeyAt(all, |ms|).value);
    }
  }

  /** A key is in the map exactly when some line set it. */
  lemma SetBefore(ms: seq<Meaning>, st: State, s: Section, key: Key)
    requires Denotes(ms, st) && s != NoSection
    ensures key in st.Values(s) <==> exists j: nat :: Sets(ms, j, s, key)
  {
    hide SectionAt, KeyAt;
  }

  /** What the new line sets. */
  lemma NewSets(ms: seq<Meaning>, m: Meaning, i: nat, s: Section, key: Key)
    ensures Sets(ms + [m], i, s, key) <==>
            if i == |ms| then
              m.Directive? && SectionAt(ms, |ms|) == s && s != NoSection && FindKey(Keys(s), m.name) == Some(key)
            else Sets(ms, i, s, key)
  {
    hide SectionAt, FindKey, Keys;
    NewSection(ms, m);
    if i < |ms| {
      SetsPrefix(ms, [m], i, s, key);
    }
  }

  lemma NewKey(ms: seq<Meaning>, st: State, m: Meaning, s: Section, key: Key)
    requires Denotes(ms, st) && StepMeaning(st, m).Ok? && s != NoSection
    ensures key in StepMeaning(st, m).value.Values(s) ==> exists i: nat :: Sets(ms + [m], i, s, key)
  {
    SetBefore(ms, st, s, key);
    NewSets(ms, m, |ms|, s, key);
    hide SectionAt, FindKey, Keys, Sets;
    if key in st.Values(s) {
      var i: nat :| Sets(ms, i, s, key);
      SetsWithin(ms, i, s, key);
      NewSets(ms, m, i, s, key);
    }
  }

  lemma SetsWithin(ms: seq<Meaning>, i: nat, s: Section, key: Key)
    requires Sets(ms, i, s, key)
    ensures i < |ms| && s != NoSection && ms[i].Directive?
  {
    hide SectionAt, FindKey, Keys;
  }

  lemma NewValue(ms: seq<Meaning>, st: State, m: Meaning, i: nat, s: Section, key: Key)
    requires Denotes(ms, st) && StepMeaning(st, m).Ok? && Sets(ms + [m], i, s, key)
    ensures i < |ms + [m]| && (ms + [m])[i].Directive? && key in StepMeaning(st, m).value.Values(s)
    ensures StepMeaning(st, m).value.Values(s)[key] == (ms + [m])[i].value
  {
    SetsWithin(ms + [m], i, s, key);
    NewSets(ms, m, i, s, key);
    hide SectionAt, FindKey, Keys, Sets;
    if i < |ms| {
      OldValue(ms, st, i, s, key);
      StepKeeps(st, m, s, key);
    }
  }

  lemma OldValue(ms: seq<Meaning>, st: State, i: nat, s: Section, key: Key)
    requires Denotes(ms, st) && Sets(ms, i, s, key)
    ensures i < |ms| && ms[i].Directive? && key in st.Values(s) && st.Values(s)[key] == ms[i].value
  {
    hide SectionAt, KeyAt;
    SetsWithin(ms, i, s, key);
  }

  /** A line never overwrites a value. */
  lemma StepKeeps(st: State, m: Meaning, s: Section, key: Key)
    requires StepMeaning(st, m).Ok? && s != NoSection && key in st.Values(s)
    ensures key in StepMeaning(st, m).value.Values(s)
    ensures StepMeaning(st, m).value.Values(s)[key] == st.Values(s)[key]
  {
    hide FindKey, Keys;
  }

  lemma NewSeen(ms: seq<Meaning>, st: State, m: Meaning, s: Section)
    requires Denotes(ms, st) && StepMeaning(st, m).Ok?
    ensures s in StepMeaning(st, m).value.seen <==> Header(s) in ms + [m]
    ensures StepMeaning(st, m).value.section == SectionAt(ms + [m], |ms| + 1)
  {
    hide SectionAt, FindKey, Keys, Sets;
    NewSection(ms, m);
    assert Header(s) in ms + [m] <==> Header(s) in ms || Header(s) == m;
  }

  lemma NewDenotes(ms: seq<Meaning>, st: State, m: Meaning)
    requires Denotes(ms, st) && StepMeaning(st, m).Ok?
    ensures Denotes(ms + [m], StepMeaning(st, m).value)
  {
    hide SectionAt, Sets, StepMeaning;
    var all, next := ms + [m], StepMeaning(st, m).value;
    NewSeen(ms, st, m, NoSection);
    forall s
      ensures s in next.seen <==> Header(s) in all
    {
      NewSeen(ms, st, m, s);
    }
    forall key
      ensures key in next.iface ==> exists i: nat :: Sets(all, i, Interface, key)
      ensures key in next.peer ==> exists i: nat :: Sets(all, i, Peer, key)
    {
      NewKey(ms, st, m, Interface, key);
      NewKey(ms, st, m, Peer, key);
    }
    forall i: nat, s, key | Sets(all, i, s, key)
      ensures i < |all| && all[i].Directive? && key in next.Values(s) && next.Values(s)[key] == all[i].value
    {
      NewValue(ms, st, m, i, s, key);
    }
  }

  // ----- Whole texts -----

  lemma {:induction false} ScanFrom(done: seq<Meaning>, st: State, text: string)
    requires Grammatical(done) && Denotes(done, st)
    ensures Scan(text, st).Ok? <==> Grammatical(done + Meanings(text))
    ensures Scan(text, st).Ok? ==> Denotes(done + Meanings(text), Scan(text, st).value)
    ensures Scan(text, st).Err? ==>
              exists i ::
                FirstBad(done + Meanings(text), i) && Scan(text, st).error == LineError(done + Meanings(text), i)
    decreases |text|
  {
    hide Grammatical, Denotes, Step, Classify, LineOk, FirstBad, LineError;
    if text == "" {
      assert done + Meanings(text) == done;
    } else {
      var end := IndexOf(text, '\n');
      var line := DropCarriageReturn(text[..end]);
      var m := Classify(line);
      var rest := if end == |text| then [] else Meanings(text[end + 1..]);
      assert done + Meanings(text) == done + [m] + rest;
      StepIsMeaning(st, line);
      NewLineOk(done, st, m);
      GrammaticalPrefix(done, [m]);
      GrammaticalPrefix(done + [m], rest);
      if StepMeaning(st, m).Ok? {
        NewDenotes(done, st, m);
        if end == |text| {
          assert done + [m] + rest == done + [m];
        } else {
          ScanFrom(done + [m], Step(st, line).value, text[end + 1..]);
        }
      } else {
        FirstBadPrefix(done, m, rest);
      }
    }
  }

  /** The line loop accepts exactly the grammatical texts, and leaves exactly what they denote. */
  lemma ScanAcceptsGrammar(text: string)
    ensures Scan(text, START).Ok? <==> Grammatical(Meanings(text))
    ensures Scan(text, START).Ok? ==> Denotes(Meanings(text), Scan(text, START).value)
    ensures Scan(text, START).Err? ==>
              exists i :: FirstBad(Meanings(text), i) && Scan(text, START).error == LineError(Meanings(text), i)
  {
    hide Scan, Meanings, FirstBad, LineError;
    assert Denotes([], START) && Grammatical([]);
    assert [] + Meanings(text) == Meanings(text);
    ScanFrom([], START, text);
  }

  /** The lines denote at most one pair of section maps. */
  lemma DenotesOnce(ms: seq<Meaning>, st: State, other: State)
    requires Denotes(ms, st) && Denotes(ms, other)
    ensures st == other
  {
    hide SectionAt, Sets;
    forall key
      ensures key in st.iface <==> key in other.iface
      ensures key in st.peer <==> key in other.peer
      ensures key in st.iface ==> st.iface[key] == other.iface[key]
      ensures key in st.peer ==> st.peer[key] == other.peer[key]
    {
      SameValue(ms, st, other, Interface, key);
      SameValue(ms, st, other, Peer, key);
      hide Denotes;
    }
    assert st.iface == other.iface && st.peer == other.peer && st.seen == other.seen;
  }

  lemma SameValue(ms: seq<Meaning>, st: State, other: State, s: Section, key: Key)
    requires Denotes(ms, st) && Denotes(ms, other) && s != NoSection
    ensures key in st.Values(s) <==> key in other.Values(s)
    ensures key in st.Values(s) ==> st.Values(s)[key] == other.Values(s)[key]
  {
    SetBefore(ms, st, s, key);
    SetBefore(ms, other, s, key);
    hide Denotes, Sets;
    if key in st.Values(s) {
      var i: nat :| Sets(ms, i, s, key);
      OldValue(ms, st, i, s, key);
      OldValue(ms, other, i, s, key);
    }
  }

  /** The section maps `st` make up a complete profile that passes the validators. */
  predicate Complete(checks: Checks, st: State) {
    Interface in st.seen && Peer in st.seen && Invalid(checks, st.iface, st.peer).None?
  }

  /** A profile is accepted exactly when it has the right size, is grammatical and denotes a complete profile. */
  lemma AcceptedProfiles(checks: Checks, raw: string)
    ensures ParseText(checks, raw).Ok? <==>
            && 0 < |raw| <= MAX_CONFIG_BYTES && (|raw| == MAX_CONFIG_BYTES ==> '\n' in raw)
            && Grammatical(Meanings(raw))
            && exists st :: Denotes(Meanings(raw), st) && Complete(checks, st)
  {
    ScanAcceptsGrammar(raw);
    hide Scan, Meanings, Grammatical, Invalid, Canonical, Denotes;
    if Scan(raw, START).Ok? {
      forall st | Denotes(Meanings(raw), st)
        ensures st == Scan(raw, START).value
      {
        DenotesOnce(Meanings(raw), st, Scan(raw, START).value);
      }
    }
  }

  /** What an accepted profile parses to is the canonical text of what its lines denote. */
  lemma AcceptedMeaning(checks: Checks, raw: string, st: State)
    requires ParseText(checks, raw).Ok? && Denotes(Meanings(raw), st)
    ensures ParseText(checks, raw).value == Parsed(Canonical(st.iface, st.peer), Get(st.peer, Endpoint))
  {
    ScanAcceptsGrammar(raw);
    hide Scan, Meanings, Grammatical, Invalid, Canonical, Denotes, Get;
    DenotesOnce(Meanings(raw), st, Scan(raw, START).value);
  }

  /** No accepted text carries a directive outside the nine, such as a command to run. */
  lemma ForeignDirectiveRejected(checks: Checks, raw: string, i: nat)
    requires i < |Meanings(raw)| && Meanings(raw)[i].Directive?
    requires forall key :: FoldedName(key) != Meanings(raw)[i].name
    ensures ParseText(checks, raw).Err?
  {
    AcceptedProfiles(checks, raw);
    ForeignLine(Meanings(raw), i);
    hide ParseText, Meanings, FoldedName, LineOk;
  }

  lemma ForeignLine(ms: seq<Meaning>, i: nat)
    requires i < |ms| && ms[i].Directive? && forall key :: FoldedName(key) != ms[i].name
    ensures !LineOk(ms, i)
  {
    hide FoldedName, FindKey, SectionAt, Sets;
  }
}
