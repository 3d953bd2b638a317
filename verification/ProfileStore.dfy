/**
 Sealed profile files (internal/vpnprofiles/store.go): the two on-disk layouts, and saving and
 loading a profile.  AES-GCM and SHA-256 are function-valued parameters; `Sound` states what is
 assumed of them.
 */
module ProfileStore {
  import opened Text
  import WireGuard
  import WireGuardRoundTrip

  const KEY_BYTES := 32
  const NONCE_BYTES := 12
  const FINGERPRINT_BYTES := 4
  const FORMAT_V1 := '\U{1}'
  const FORMAT_V2 := '\U{2}'

  /** `encrypt` and `decrypt` take key, nonce and text; `fingerprint` is the head of the key's hash. */
  datatype Cipher = Cipher(
    encrypt: (string, string, string) -> string,
    decrypt: (string, string, string) -> Option<string>,
    fingerprint: string -> string)

  /** Decryption undoes encryption under the same key and fails under every other one. */
  ghost predicate Sound(c: Cipher) {
    && (forall k: string :: |c.fingerprint(k)| == FINGERPRINT_BYTES)
    && (forall k: string, k': string, n: string, p: string ::
          c.decrypt(k', n, c.encrypt(k, n, p)) == if k' == k then Some(p) else None)
  }

  datatype OpenError = Malformed | DifferentKey | UnknownVersion | Unauthentic

  function Seal(c: Cipher, key: string, nonce: string, plain: string): string {
    [FORMAT_V2] + c.fingerprint(key) + nonce + c.encrypt(key, nonce, plain)
  }

  /** What earlier releases wrote. */
  function SealV1(c: Cipher, key: string, nonce: string, plain: string): string {
    [FORMAT_V1] + nonce + c.encrypt(key, nonce, plain)
  }

  /** Decrypts what follows the header, which ends at `offset`. */
  function OpenAt(c: Cipher, key: string, data: string, offset: nat): Result<string, OpenError>
    requires offset <= |data|
  {
    if |data| < offset + NONCE_BYTES then Err(Malformed)
    else
      var body := offset + NONCE_BYTES;
      match c.decrypt(key, data[offset..body], data[body..])
      case None => Err(Unauthentic)
      case Some(plain) => Ok(plain)
  }

  function Open(c: Cipher, key: string, data: string): Result<string, OpenError> {
    if |data| < 1 then Err(Malformed)
    else if data[0] == FORMAT_V1 then OpenAt(c, key, data, 1)
    else if data[0] == FORMAT_V2 then
      if |data| < 1 + FINGERPRINT_BYTES then Err(Malformed)
      else if data[1..1 + FINGERPRINT_BYTES] != c.fingerprint(key) then Err(DifferentKey)
      else OpenAt(c, key, data, 1 + FINGERPRINT_BYTES)
    else Err(UnknownVersion)
  }

  /** A sealed profile opens under its own key only; another key is told so whenever the fingerprints differ. */
  lemma OpenSealed(c: Cipher, key: string, key': string, nonce: string, plain: string)
    requires Sound(c) && |nonce| == NONCE_BYTES
    ensures Open(c, key', Seal(c, key, nonce, plain)) ==
            if key' == key then Ok(plain)
            else if c.fingerprint(key') != c.fingerprint(key) then Err(DifferentKey)
            else Err(Unauthentic)
  {
    var data := Seal(c, key, nonce, plain);
    assert data[1..1 + FINGERPRINT_BYTES] == c.fingerprint(key);
    assert data[1 + FINGERPRINT_BYTES..][..NONCE_BYTES] == nonce;
    assert data[1 + FINGERPRINT_BYTES + NONCE_BYTES..] == c.encrypt(key, nonce, plain);
  }

  lemma OpenSealedV1(c: Cipher, key: string, key': string, nonce: string, plain: string)
    requires Sound(c) && |nonce| == NONCE_BYTES
    ensures Open(c, key', SealV1(c, key, nonce, plain)) == if key' == key then Ok(plain) else Err(Unauthentic)
  {
    var data := SealV1(c, key, nonce, plain);
    assert data[1..][..NONCE_BYTES] == nonce;
    assert data[1 + NONCE_BYTES..] == c.encrypt(key, nonce, plain);
  }

  // ----- File names -----

  const SUFFIX := ".wg.enc"

  predicate ValidRef(ref: string) {
    |ref| == 39 && ref[32..] == SUFFIX && '/' !in ref && '\\' !in ref
  }

  /** A valid reference names one file directly in the directory: 32 bytes without separators, and the suffix. */
  lemma ValidRefShape(ref: string)
    ensures ValidRef(ref) <==> exists stem :: |stem| == 32 && ref == stem + ".wg.enc" && '/' !in stem && '\\' !in stem
  {
    if ValidRef(ref) {
      assert ref == ref[..32] + SUFFIX;
    }
    forall stem | |stem| == 32 && ref == stem + ".wg.enc" && '/' !in stem && '\\' !in stem
      ensures ValidRef(ref)
    {
      assert ref[32..] == SUFFIX;
    }
  }

  // ----- The file system -----

  /** How a file write ended; `kept` is the length of what reached the file, None if it was not opened. */
  datatype WriteOutcome = Written | WriteFailed(kept: Option<nat>) | WriteCrashed(kept: Option<nat>)

  function AfterWrite(files: map<string, string>, name: string, data: string, o: WriteOutcome): map<string, string> {
    if o.Written? then files[name := data]
    else if o.kept.None? then files
    else files[name := if o.kept.value <= |data| then data[..o.kept.value] else data]
  }

  datatype StoreError =
    | InvalidProfile(reason: WireGuard.Error) | InvalidRef | NoKey | Missing | ReadError | Unreadable(why: OpenError)
    | NoRandom | WriteError

  /** The result of loading `ref` from these files. */
  function LoadFrom(c: Cipher, checks: WireGuard.Checks, key: string, files: map<string, string>, ref: string)
    : Result<string, StoreError>
  {
    if !ValidRef(ref) then Err(InvalidRef)
    else if ref !in files then Err(Missing)
    else
      match Open(c, key, files[ref])
      case Err(why) => Err(Unreadable(why))
      case Ok(plain) =>
        match WireGuard.ParseText(checks, plain)
        case Err(reason) => Err(InvalidProfile(reason))
        case Ok(_) => Ok(plain)
  }

  /** A text that saving accepts is stored so that loading under the same key returns it, whatever else is stored. */
  lemma SavedProfileLoads(c: Cipher, checks: WireGuard.Checks, key: string, nonce: string, raw: string,
                          files: map<string, string>, ref: string)
    requires Sound(c) && |nonce| == NONCE_BYTES && ValidRef(ref)
    requires WireGuard.ParseText(checks, raw).Ok?
    requires WireGuard.ParseText(checks, WireGuard.ParseText(checks, raw).value.canonical).Ok?
    ensures
      var parsed := WireGuard.ParseText(checks, raw).value;
      var stored := WireGuard.ParseText(checks, parsed.canonical).value.canonical;
      && stored == parsed.canonical
      && WireGuard.ParseText(checks, stored) == Ok(parsed)
      && LoadFrom(c, checks, key, files[ref := Seal(c, key, nonce, stored)], ref) == Ok(parsed.canonical)
  {
    hide WireGuard.ParseText, Seal, Open;
    WireGuardRoundTrip.ReparseCanonical(checks, raw);
    OpenSealed(c, key, key, nonce, WireGuard.ParseText(checks, raw).value.canonical);
  }

  class Directory {
    var files: map<string, string>

    constructor ()
      ensures files == map[]
    {
      files := map[];
    }

    /**
     `key` is None when no key could be had; `id` is the random hexadecimal identifier and `nonce` the
     random nonce, None when no randomness was available.
     */
    method Save(c: Cipher, checks: WireGuard.Checks, key: Option<string>, config: string,
                nonce: Option<string>, id: Option<string>, written: WriteOutcome)
      returns (result: Result<string, StoreError>)
      requires nonce.Some? ==> |nonce.value| == NONCE_BYTES
      requires id.Some? ==> ValidRef(id.value + SUFFIX)
      modifies this
      ensures
        var parsed := WireGuard.ParseText(checks, config);
        if parsed.Err? then result == Err(InvalidProfile(parsed.error)) && files == old(files)
        else if key.None? then result == Err(NoKey) && files == old(files)
        else if nonce.None? || id.None? then result == Err(NoRandom) && files == old(files)
        else
          && result == (if written.Written? then Ok(id.value + SUFFIX) else Err(WriteError))
          && var sealed := Seal(c, key.value, nonce.value, parsed.value.canonical);
          files == AfterWrite(old(files), id.value + SUFFIX, sealed, written)
    {
      var parsed := WireGuard.Parse(checks, config);
      if parsed.Err? {
        return Err(InvalidProfile(parsed.error));
      }
      if key.None? {
        return Err(NoKey);
      }
      if nonce.None? || id.None? {
        return Err(NoRandom);
      }
      var ref := id.value + SUFFIX;
      files := AfterWrite(files, ref, Seal(c, key.value, nonce.value, parsed.value.canonical), written);
      result := if written.Written? then Ok(ref) else Err(WriteError);
    }

    /** `key` is None when no key could be had, `readable` is false when reading an existing file fails. */
    method Load(c: Cipher, checks: WireGuard.Checks, key: Option<string>, ref: string, readable: bool)
      returns (result: Result<string, StoreError>)
      ensures result ==
              if !ValidRef(ref) then Err(InvalidRef)
              else if key.None? then Err(NoKey)
              else if ref in files && !readable then Err(ReadError)
              else LoadFrom(c, checks, key.value, files, ref)
    {
      if !ValidRef(ref) {
        return Err(InvalidRef);
      }
      if key.None? {
        return Err(NoKey);
      }
      if ref !in files {
        return Err(Missing);
      }
      if !readable {
        return Err(ReadError);
      }
      var plain := Open(c, key.value, files[ref]);
      if plain.Err? {
        return Err(Unreadable(plain.error));
      }
      var parsed := WireGuard.Parse(checks, plain.value);
      if parsed.Err? {
        return Err(InvalidProfile(parsed.error));
      }
      return Ok(plain.value);
    }

    /**
     The controller's upload path: parse, then save the canonical text.  Whatever it manages to
     store loads back as exactly the canonical text, and the worker's own parse accepts that text.
     It refuses an accepted upload only for want of a key, randomness or disk, or because the
     canonical text outgrew the size limit.
     */
    method StoreProfile(c: Cipher, checks: WireGuard.Checks, key: Option<string>, upload: string,
                        nonce: Option<string>, id: Option<string>, written: WriteOutcome)
      returns (result: Result<string, StoreError>)
      requires Sound(c)
      requires nonce.Some? ==> |nonce.value| == NONCE_BYTES
      requires id.Some? ==> ValidRef(id.value + SUFFIX)
      modifies this
      ensures result.Ok? ==>
                var parsed := WireGuard.ParseText(checks, upload);
                && parsed.Ok? && key.Some?
                && LoadFrom(c, checks, key.value, files, result.value) == Ok(parsed.value.canonical)
                && WireGuard.ParseText(checks, parsed.value.canonical) == parsed
      ensures result.Err? && WireGuard.ParseText(checks, upload).Ok? ==>
                result.error in {InvalidProfile(WireGuard.Size), NoKey, NoRandom, WriteError}
      ensures result == Err(InvalidProfile(WireGuard.Size)) && WireGuard.ParseText(checks, upload).Ok?
              <==> WireGuard.ParseText(checks, upload).Ok?
                   && |WireGuard.ParseText(checks, upload).value.canonical| > WireGuard.MAX_CONFIG_BYTES
      ensures forall ref :: ref in old(files) && (id.Some? ==> ref != id.value + SUFFIX) ==>
                              ref in files && files[ref] == old(files)[ref]
    {
      hide WireGuard.ParseText, Seal, Open, ValidRef, LoadFrom;
      var parsed := WireGuard.Parse(checks, upload);
      if parsed.Err? {
        return Err(InvalidProfile(parsed.error));
      }
      WireGuardRoundTrip.ReparseCanonical(checks, upload);
      result := Save(c, checks, key, parsed.value.canonical, nonce, id, written);
      if result.Ok? {
        SavedProfileLoads(c, checks, key.value, nonce.value, upload, old(files), result.value);
      }
    }
  }
}
