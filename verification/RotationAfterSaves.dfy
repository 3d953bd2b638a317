/**
 Saving and rotating together (internal/vpnprofiles/store.go): which directories built by saves, each
 ending in any way, can still be rotated.
 */
module RotationAfterSaves {
  import opened Text
  import opened ProfileStore
  import opened KeyRotation
  import WireGuard

  /** No proper part of a ciphertext is authentic, under any key. */
  ghost predicate Authentic(c: Cipher) {
    forall k: string, k': string, n: string, p: string, i: nat :: i < |c.encrypt(k, n, p)| ==>
      c.decrypt(k', n, c.encrypt(k, n, p)[..i]).None?
  }

  /** A save that got as far as writing its file. */
  datatype Saving = Saving(ref: string, nonce: string, plain: string, written: WriteOutcome)

  function Sealed(keys: Keys, s: Saving): string {
    Seal(keys.cipher, keys.oldKey, s.nonce, s.plain)
  }

  /** What the saves leave in an empty directory. */
  function AfterSaves(keys: Keys, saves: seq<Saving>): Files {
    if saves == [] then map[]
    else
      var last := saves[|saves| - 1];
      AfterWrite(AfterSaves(keys, saves[..|saves| - 1]), last.ref, Sealed(keys, last), last.written)
  }

  predicate WellFormed(saves: seq<Saving>) {
    && (forall i :: 0 <= i < |saves| ==> ValidRef(saves[i].ref) && |saves[i].nonce| == NONCE_BYTES)
    && (forall i, j :: 0 <= i < j < |saves| ==> saves[i].ref != saves[j].ref)
  }

  /** The file was opened, and some of it is missing. */
  predicate CutShort(keys: Keys, s: Saving) {
    !s.written.Written? && s.written.kept.Some? && s.written.kept.value < |Sealed(keys, s)|
  }

  lemma PartDoesNotOpen(c: Cipher, key: string, key': string, nonce: string, plain: string, n: nat)
    requires Sound(c) && Authentic(c) && |nonce| == NONCE_BYTES && n < |Seal(c, key, nonce, plain)|
    ensures Open(c, key', Seal(c, key, nonce, plain)[..n]).Err?
  {
    var data, body := Seal(c, key, nonce, plain), 1 + FINGERPRINT_BYTES + NONCE_BYTES;
    var part := data[..n];
    if n >= body {
      assert data[1 + FINGERPRINT_BYTES..body] == nonce && data[body..] == c.encrypt(key, nonce, plain);
      assert part[1 + FINGERPRINT_BYTES..body] == nonce;
      assert part[body..] == c.encrypt(key, nonce, plain)[..n - body];
    }
  }

  lemma SaveReads(keys: Keys, s: Saving)
    requires Sound(keys.cipher) && Authentic(keys.cipher) && |s.nonce| == NONCE_BYTES
    ensures Reads(keys, Sealed(keys, s)).Some?
    ensures forall n: nat :: n < |Sealed(keys, s)| ==> Reads(keys, Sealed(keys, s)[..n]).None?
  {
    hide Open, Seal, Sound, Authentic;
    OpenSealed(keys.cipher, keys.oldKey, keys.oldKey, s.nonce, s.plain);
    forall n: nat | n < |Sealed(keys, s)|
      ensures Reads(keys, Sealed(keys, s)[..n]).None?
    {
      PartDoesNotOpen(keys.cipher, keys.oldKey, keys.oldKey, s.nonce, s.plain, n);
      PartDoesNotOpen(keys.cipher, keys.oldKey, keys.newKey, s.nonce, s.plain, n);
    }
  }

  lemma AddingReadable(keys: Keys, files: Files, ref: string, data: string)
    requires ref !in files && ValidRef(ref)
    ensures AllReadable(keys, files[ref := data]) <==> AllReadable(keys, files) && Reads(keys, data).Some?
  {
    hide Reads, ValidRef;
    var after := files[ref := data];
    assert forall n :: n in files ==> n in after && after[n] == files[n];
    assert after[ref] == data;
  }

  /** One more save keeps the directory rotatable exactly if it is not cut short. */
  lemma OneMoreSave(keys: Keys, files: Files, s: Saving)
    requires Sound(keys.cipher) && Authentic(keys.cipher) && ValidRef(s.ref) && |s.nonce| == NONCE_BYTES
    requires s.ref !in files
    ensures AllReadable(keys, AfterWrite(files, s.ref, Sealed(keys, s), s.written)) <==>
            AllReadable(keys, files) && !CutShort(keys, s)
  {
    SaveReads(keys, s);
    hide Reads, AllReadable, Sealed, ValidRef, Sound, Authentic;
    var data := Sealed(keys, s);
    AddingReadable(keys, files, s.ref, data);
    if CutShort(keys, s) {
      AddingReadable(keys, files, s.ref, data[..s.written.kept.value]);
    }
    assert data[..|data|] == data;
  }

  lemma {:induction false} SavedNames(keys: Keys, saves: seq<Saving>, n: string)
    requires n in AfterSaves(keys, saves)
    ensures exists i :: 0 <= i < |saves| && saves[i].ref == n
  {
    hide Sealed;
    var before, last := saves[..|saves| - 1], saves[|saves| - 1];
    if n != last.ref {
      SavedNames(keys, before, n);
    }
  }

  /**
   After any series of saves into an empty directory, each ending in any way, every profile is
   readable, and so a rotation without faults succeeds, if and only if no save was cut short.
   */
  lemma {:induction false} SavesStayRotatable(keys: Keys, saves: seq<Saving>)
    requires Sound(keys.cipher) && Authentic(keys.cipher) && WellFormed(saves)
    ensures NoneStaged(AfterSaves(keys, saves))
    ensures AllReadable(keys, AfterSaves(keys, saves)) <==> forall i :: 0 <= i < |saves| ==> !CutShort(keys, saves[i])
  {
    hide AllReadable, CutShort, Sealed, Sound, Authentic;
    forall n | n in AfterSaves(keys, saves)
      ensures !IsTemp(n)
    {
      SavedNames(keys, saves, n);
      TempNames(n);
    }
    if saves == [] {
      NothingSaved(keys);
    } else {
      var before, last := saves[..|saves| - 1], saves[|saves| - 1];
      if last.ref in AfterSaves(keys, before) {
        SavedNames(keys, before, last.ref);
      }
      SavesStayRotatable(keys, before);
      OneMoreSave(keys, AfterSaves(keys, before), last);
    }
  }

  lemma NothingSaved(keys: Keys)
    ensures AllReadable(keys, map[])
  {
  }

  /** One unreadable profile blocks rotation for good: no attempt ever succeeds, and it stays unreadable. */
  lemma {:induction false} UnreadableBlocks(keys: Keys, states: seq<Files>, success: seq<bool>, k: nat)
    requires |states| == |success| + 1 && k < |states| && !AllReadable(keys, states[0])
    requires forall i :: 0 <= i < |success| ==> Attempt(keys, states[i], states[i + 1], success[i])
    ensures !AllReadable(keys, states[k])
    ensures forall i :: 0 <= i < k ==> !success[i]
  {
    hide AllReadable, Attempt;
    if k > 0 {
      UnreadableBlocks(keys, states, success, k - 1);
      OneAttemptBlocked(keys, states[k - 1], states[k], success[k - 1]);
    }
  }

  lemma OneAttemptBlocked(keys: Keys, before: Files, after: Files, success: bool)
    requires Attempt(keys, before, after, success) && !AllReadable(keys, before)
    ensures !success && !AllReadable(keys, after)
  {
    hide Reads, ValidRef, IsNew, Resumable, NoneStaged;
    var n :| n in before && ValidRef(n) && Reads(keys, before[n]).None?;
    TempNames(n);
    assert n in after && Reads(keys, after[n]) == Reads(keys, before[n]);
  }

  // ----- From saving to loading -----

  lemma {:induction false} SavedIsThere(keys: Keys, saves: seq<Saving>, i: nat)
    requires WellFormed(saves) && i < |saves| && saves[i].written.Written?
    ensures saves[i].ref in AfterSaves(keys, saves)
    ensures AfterSaves(keys, saves)[saves[i].ref] == Sealed(keys, saves[i])
  {
    hide Sealed, ValidRef;
    if i < |saves| - 1 {
      SavedIsThere(keys, saves[..|saves| - 1], i);
    }
  }

  /**
   Saved under the old key, then rotated by any series of attempts of which the last succeeded: the
   profile loads under the new key as exactly the text that was saved.
   */
  lemma SavedLoadsAfterRotation(checks: WireGuard.Checks, keys: Keys, saves: seq<Saving>, i: nat,
                                states: seq<Files>, success: seq<bool>, k: nat)
    requires Sound(keys.cipher) && Authentic(keys.cipher) && WellFormed(saves)
    requires i < |saves| && saves[i].written.Written? && WireGuard.ParseText(checks, saves[i].plain).Ok?
    requires |states| == |success| + 1 && 0 < k < |states| && success[k - 1]
    requires states[0] == AfterSaves(keys, saves)
    requires forall j :: 0 <= j < |success| ==> Attempt(keys, states[j], states[j + 1], success[j])
    ensures LoadFrom(keys.cipher, checks, keys.newKey, states[k], saves[i].ref) == Ok(saves[i].plain)
  {
    hide WireGuard.ParseText, AfterSaves, Attempt, Sound, Authentic;
    var ref := saves[i].ref;
    SavesStayRotatable(keys, saves);
    RotationResumes(keys, states, success, k);
    SavedIsThere(keys, saves, i);
    OpenSealed(keys.cipher, keys.oldKey, keys.oldKey, saves[i].nonce, saves[i].plain);
    TempNames(ref);
    hide Open, Seal, ValidRef, IsTemp;
    assert Reads(keys, states[0][ref]) == Some(saves[i].plain);
    assert ref in states[k] && IsNew(keys, states[k][ref], saves[i].plain);
  }

  /**
   Saves and rotations are taken one at a time.  A save under the old key that slips in after a
   rotation has listed the directory stays under the old key although the rotation succeeds; the
   directory is still readable with both keys, so another rotation mends it.
   */
  lemma SaveDuringRotation(keys: Keys, before: Files, after: Files, s: Saving)
    requires Sound(keys.cipher) && Authentic(keys.cipher) && keys.oldKey != keys.newKey
    requires Attempt(keys, before, after, true) && s.ref !in after
    requires ValidRef(s.ref) && |s.nonce| == NONCE_BYTES
    ensures
      var files := after[s.ref := Sealed(keys, s)];
      && Open(keys.cipher, keys.newKey, files[s.ref]).Err?
      && AllReadable(keys, files)
  {
    OpenSealed(keys.cipher, keys.oldKey, keys.newKey, s.nonce, s.plain);
    SaveReads(keys, s);
    hide Sound, Authentic, Open, Seal;
    AllNewIsReadable(keys, before, after);
    AddingReadable(keys, after, s.ref, Sealed(keys, s));
  }

  lemma AllNewIsReadable(keys: Keys, before: Files, after: Files)
    requires Attempt(keys, before, after, true)
    ensures AllReadable(keys, after)
  {
    hide Open, ValidRef, Resumable, NoneStaged;
  }
}
