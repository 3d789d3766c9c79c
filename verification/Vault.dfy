/** The encrypted vault: its byte layout, and the map of remote profiles kept in it. */
module Vault {
  import opened Prelude
  import opened Listing

  const SALT_LENGTH := 16
  const NONCE_LENGTH := 12
  const HEADER_LENGTH := 4 + 1 + 4 + 4 + 1 + SALT_LENGTH + NONCE_LENGTH
  const ARGON2_TIME := 3
  const ARGON2_MEMORY := 64 * 1024
  const ARGON2_THREADS := 4
  const WORD := 0x1_0000_0000

  // "UNIS"
  const MAGIC: bytes := [0x55, 0x4E, 0x49, 0x53]
  const VERSION: byte := 1
  const AAD: bytes := MAGIC + [VERSION]

  // ---------------------------------------------------------------- the layout

  datatype Envelope = Envelope(time: nat, memory: nat, threads: nat, salt: bytes, nonce: bytes, ciphertext: bytes)

  predicate Fits(e: Envelope) {
    && e.time < WORD && e.memory < WORD && e.threads < 256
    && |e.salt| == SALT_LENGTH && |e.nonce| == NONCE_LENGTH
  }

  /** Four bytes, most significant first. */
  function BigEndian(n: nat): (b: bytes)
    requires n < WORD
    ensures |b| == 4
  {
    [(n / 256 / 256 / 256) as byte, (n / 256 / 256 % 256) as byte, (n / 256 % 256) as byte, (n % 256) as byte]
  }

  function FromBigEndian(b: bytes): (n: nat)
    requires |b| == 4
    ensures n < WORD
  {
    ((b[0] as int * 256 + b[1] as int) * 256 + b[2] as int) * 256 + b[3] as int
  }

  lemma WordOut(n: nat)
    requires n < WORD
    ensures FromBigEndian(BigEndian(n)) == n
  {
    assert n / 256 / 256 / 256 < 256;
  }

  lemma LastDigit(high: nat, low: byte)
    ensures (high * 256 + low as int) / 256 == high && (high * 256 + low as int) % 256 == low as int
  {
  }

  lemma WordIn(b: bytes)
    requires |b| == 4
    ensures BigEndian(FromBigEndian(b)) == b
  {
    var top := b[0] as int;
    LastDigit(top, b[1]);
    LastDigit(top * 256 + b[1] as int, b[2]);
    LastDigit((top * 256 + b[1] as int) * 256 + b[2] as int, b[3]);
  }

  function Layout(e: Envelope): bytes
    requires Fits(e)
  {
    MAGIC + [VERSION] + BigEndian(e.time) + BigEndian(e.memory) + [e.threads as byte] + e.salt + e.nonce + e.ciphertext
  }

  /** Byte by byte: "UNIS", version 1, two words with the most significant byte first, and the
      number of threads. */
  predicate SpelledOut(d: bytes, e: Envelope) {
    && |d| >= 42
    && d[..5] == [0x55, 0x4E, 0x49, 0x53, 1]
    && d[5] as int * 0x100_0000 + d[6] as int * 0x1_0000 + d[7] as int * 0x100 + d[8] as int == e.time
    && d[9] as int * 0x100_0000 + d[10] as int * 0x1_0000 + d[11] as int * 0x100 + d[12] as int == e.memory
    && d[13] as int == e.threads
    && d[14..30] == e.salt && d[30..42] == e.nonce && d[42..] == e.ciphertext
  }

  lemma LayoutSpelledOut(e: Envelope)
    requires Fits(e)
    ensures SpelledOut(Layout(e), e)
  {
    var d := Layout(e);
    Fields(e);
    WordOut(e.time);
    WordOut(e.memory);
    assert d[..5] == d[0..4] + [d[4]];
    assert d[5..9] == [d[5], d[6], d[7], d[8]] && d[9..13] == [d[9], d[10], d[11], d[12]];
  }

  /** The header that the standard settings lead to. */
  lemma HeaderWitness(salt: bytes, nonce: bytes, text: bytes)
    requires |salt| == 16 && |nonce| == 12
    ensures Layout(Envelope(ARGON2_TIME, ARGON2_MEMORY, ARGON2_THREADS, salt, nonce, text))
            == [0x55, 0x4E, 0x49, 0x53, 1, 0, 0, 0, 3, 0, 1, 0, 0, 4] + salt + nonce + text
  {
    assert BigEndian(3) == [0, 0, 0, 3] && BigEndian(65536) == [0, 1, 0, 0];
  }

  /** Where each field lies. */
  lemma Fields(e: Envelope)
    requires Fits(e)
    ensures var d := Layout(e);
            && |d| >= HEADER_LENGTH && d[0..4] == MAGIC && d[4] == VERSION
            && d[5..9] == BigEndian(e.time) && d[9..13] == BigEndian(e.memory) && d[13] as int == e.threads
            && d[14..30] == e.salt && d[30..42] == e.nonce && d[42..] == e.ciphertext
  {
  }

  lemma Rebuilt(d: bytes, e: Envelope)
    requires Fits(e) && |d| >= HEADER_LENGTH && d[0..4] == MAGIC && d[4] == VERSION
    requires d[5..9] == BigEndian(e.time) && d[9..13] == BigEndian(e.memory) && d[13] as int == e.threads
    requires d[14..30] == e.salt && d[30..42] == e.nonce && d[42..] == e.ciphertext
    ensures Layout(e) == d
  {
    assert d == d[0..4] + [d[4]] + d[5..9] + d[9..13] + [d[13]] + d[14..30] + d[30..42] + d[42..];
  }

  /** No two envelopes share a layout. */
  lemma LayoutInjective(e: Envelope, f: Envelope)
    requires Fits(e) && Fits(f) && Layout(e) == Layout(f)
    ensures e == f
  {
    Fields(e);
    Fields(f);
    WordOut(e.time);
    WordOut(f.time);
    WordOut(e.memory);
    WordOut(f.memory);
  }

  ghost predicate IsLayoutOf(data: bytes, e: Envelope) {
    Fits(e) && Layout(e) == data
  }

  /** The envelope a file holds, if it holds one. */
  ghost function Parse(data: bytes): (r: Option<Envelope>)
    ensures r.Some? ==> IsLayoutOf(data, r.value)
    ensures r.None? ==> forall e :: !IsLayoutOf(data, e)
  {
    if exists e :: IsLayoutOf(data, e) then
      var e :| IsLayoutOf(data, e);
      Some(e)
    else None
  }

  lemma ParseOfLayout(e: Envelope)
    requires Fits(e)
    ensures Parse(Layout(e)) == Some(e)
  {
    assert IsLayoutOf(Layout(e), e);
    LayoutInjective(e, Parse(Layout(e)).value);
  }

  method Copy(a: array<byte>, at: nat, s: bytes)
    requires at + |s| <= a.Length
    modifies a
    ensures a[..at + |s|] == old(a[..at]) + s && a[at + |s|..] == old(a[at + |s|..])
  {
    for i := 0 to |s|
      invariant a[..at + i] == old(a[..at]) + s[..i] && a[at + |s|..] == old(a[at + |s|..])
    {
      a[at + i] := s[i];
    }
  }

  function Header(e: Envelope): (h: bytes)
    requires Fits(e)
    ensures |h| == HEADER_LENGTH && Layout(e) == h + e.ciphertext
  {
    Preamble(e) + e.salt + e.nonce
  }

  function Preamble(e: Envelope): (h: bytes)
    requires Fits(e)
    ensures |h| == 14
  {
    MAGIC + [VERSION] + BigEndian(e.time) + BigEndian(e.memory) + [e.threads as byte]
  }

  method CopyPreamble(payload: array<byte>, e: Envelope) returns (idx: nat)
    requires Fits(e) && payload.Length >= HEADER_LENGTH
    modifies payload
    ensures idx == 14 && payload[..idx] == Preamble(e)
  {
    idx := 0;
    Copy(payload, idx, MAGIC);
    idx := idx + 4;
    Copy(payload, idx, [VERSION]);
    idx := idx + 1;
    Copy(payload, idx, BigEndian(e.time));
    idx := idx + 4;
    Copy(payload, idx, BigEndian(e.memory));
    idx := idx + 4;
    Copy(payload, idx, [e.threads as byte]);
    idx := idx + 1;
  }

  /** The payload buffer of `saveStore`, filled field by field. */
  method EncodePayload(e: Envelope) returns (payload: array<byte>)
    requires Fits(e)
    ensures fresh(payload) && payload[..] == Layout(e) && SpelledOut(payload[..], e)
  {
    LayoutSpelledOut(e);
    payload := new byte[HEADER_LENGTH + |e.ciphertext|];
    var idx := CopyPreamble(payload, e);
    Copy(payload, idx, e.salt);
    idx := idx + SALT_LENGTH;
    Copy(payload, idx, e.nonce);
    idx := idx + NONCE_LENGTH;
    assert payload[..idx] == Header(e);
    Copy(payload, idx, e.ciphertext);
    assert payload[..] == payload[..idx + |e.ciphertext|];
  }

  /** The header checks and slices of `loadStore`: a file is taken exactly when it is the
      layout of an envelope, and that envelope is what comes out. */
  method DecodePayload(data: bytes) returns (e: Option<Envelope>)
    ensures e == Parse(data)
    ensures e.Some? <==> |data| >= 42 && data[..5] == [0x55, 0x4E, 0x49, 0x53, 1]
    ensures e.Some? ==> Fits(e.value) && Layout(e.value) == data && SpelledOut(data, e.value)
  {
    Recognised(data);
    if |data| >= 42 {
      assert data[..5] == data[0..4] + [data[4]];
      assert data[..5] == [0x55, 0x4E, 0x49, 0x53, 1] <==> data[0..4] == MAGIC && data[4] == VERSION;
    }
    if |data| < 4 + 1 + 4 + 4 + 1 + SALT_LENGTH + NONCE_LENGTH {
      return None;
    }
    var offset := 0;
    if data[offset..offset + 4] != MAGIC {
      return None;
    }
    offset := offset + 4;
    if data[offset] != VERSION {
      return None;
    }
    offset := offset + 1;
    var time := FromBigEndian(data[offset..offset + 4]);
    offset := offset + 4;
    var memory := FromBigEndian(data[offset..offset + 4]);
    offset := offset + 4;
    var threads := data[offset] as int;
    offset := offset + 1;
    var salt := data[offset..offset + SALT_LENGTH];
    offset := offset + SALT_LENGTH;
    var nonce := data[offset..offset + NONCE_LENGTH];
    offset := offset + NONCE_LENGTH;
    var found := Envelope(time, memory, threads, salt, nonce, data[offset..]);
    WordIn(data[5..9]);
    WordIn(data[9..13]);
    Rebuilt(data, found);
    LayoutSpelledOut(found);
    ParseOfLayout(found);
    return Some(found);
  }

  lemma Recognised(data: bytes)
    ensures Parse(data).Some? ==> |data| >= HEADER_LENGTH && data[0..4] == MAGIC && data[4] == VERSION
    ensures Parse(data).Some? ==> IsLayoutOf(data, Parse(data).value)
  {
    if Parse(data).Some? {
      Fields(Parse(data).value);
    }
  }

  // ---------------------------------------------------------------- the store of profiles

  datatype RemoteProfile = RemoteProfile(name: string, kind: string, endpoint: string, region: string, bucket: string,
                                         accessKey: string, secretKey: string, path: string,
                                         options: map<string, string>)

  type Remotes = map<string, RemoteProfile>

  /** The key derivation, the authenticated cipher (sections 2.1 and 2.2 of RFC 5116) and the
      JSON coding, none of which is looked into. */
  datatype Codec = Codec(
    deriveKey: (bytes, bytes, nat, nat, nat) -> bytes,
    seal: (bytes, bytes, bytes, bytes) -> bytes,
    open: (bytes, bytes, bytes, bytes) -> Option<bytes>,
    marshal: Remotes -> bytes,
    unmarshal: bytes -> Option<Remotes>)

  /** What was sealed opens under the same key, nonce and additional data, and what was
      marshalled unmarshals. */
  ghost predicate Lawful(c: Codec) {
    && (forall key, nonce, text, aad :: c.open(key, nonce, c.seal(key, nonce, text, aad), aad) == Some(text))
    && (forall m :: c.unmarshal(c.marshal(m)) == Some(m))
  }

  datatype VaultError =
    | RemoteNotFound | InvalidPassword | Corrupted | BadJson
    | ReadFailed | WriteFailed
    | DerivationPanics

  /** What one call leaves to chance: whether the file can be read; and, if it saves, the random
      bytes, whether everything up to the temporary file comes off, and how the renaming goes:
      when the first rename fails the vault is removed and the rename tried once more. */
  datatype Chance = Chance(readable: bool, salt: bytes, nonce: bytes, prepared: bool,
                           renamed: bool, removed: bool, renamedAgain: bool)

  predicate ChanceOk(c: Chance) {
    |c.salt| == SALT_LENGTH && |c.nonce| == NONCE_LENGTH
  }

  /** What becomes of a save: the file is replaced, left as it was, or gone. */
  datatype Fate = Written | Refused | Removed

  function FateOf(c: Chance): Fate {
    if !c.prepared then Refused
    else if c.renamed || c.renamedAgain then Written
    else if c.removed then Removed
    else Refused
  }

  /** What a file means under a passphrase; a missing file holds no profiles. Key derivation
      panics on a header without rounds or threads. */
  ghost function Contents(c: Codec, file: Option<bytes>, passphrase: bytes): Result<Remotes, VaultError> {
    if file.None? then Ok(map[])
    else if Parse(file.value).None? then Err(Corrupted)
    else
      var e := Parse(file.value).value;
      if e.time < 1 || e.threads < 1 then Err(DerivationPanics)
      else
        var text := c.open(c.deriveKey(passphrase, e.salt, e.time, e.memory, e.threads), e.nonce, e.ciphertext, AAD);
        if text.None? then Err(InvalidPassword)
        else if c.unmarshal(text.value).None? then Err(BadJson)
        else Ok(c.unmarshal(text.value).value)
  }

  /** A file opens to these profiles exactly when it is long enough, starts with "UNIS" and
      version 1, names at least one round and one thread, and its ciphertext opens, under the
      key derived with its own settings and salt, its nonce and those first five bytes, to text
      that unmarshals to them. */
  lemma OpenedExactly(c: Codec, data: bytes, passphrase: bytes, m: Remotes)
    ensures Contents(c, Some(data), passphrase) == Ok(m)
      <==> && |data| >= 42 && data[..5] == [0x55, 0x4E, 0x49, 0x53, 1]
           && var time := data[5] as int * 0x100_0000 + data[6] as int * 0x1_0000 + data[7] as int * 0x100
                          + data[8] as int;
              var memory := data[9] as int * 0x100_0000 + data[10] as int * 0x1_0000 + data[11] as int * 0x100
                            + data[12] as int;
              var key := c.deriveKey(passphrase, data[14..30], time, memory, data[13] as int);
              var text := c.open(key, data[30..42], data[42..], [0x55, 0x4E, 0x49, 0x53, 1]);
              time >= 1 && data[13] >= 1 && text.Some? && c.unmarshal(text.value) == Some(m)
  {
    assert AAD == [0x55, 0x4E, 0x49, 0x53, 1];
    if |data| >= 42 && data[..5] == [0x55, 0x4E, 0x49, 0x53, 1] {
      var e := EnvelopeOf(data);
      LayoutSpelledOut(e);
      ParseOfLayout(e);
      assert Parse(data) == Some(e) && SpelledOut(data, e);
    } else if Parse(data).Some? {
      LayoutSpelledOut(Parse(data).value);
    }
  }

  /** A file with the right start is the layout of something. */
  lemma EnvelopeOf(data: bytes) returns (e: Envelope)
    requires |data| >= 42 && data[..5] == [0x55, 0x4E, 0x49, 0x53, 1]
    ensures IsLayoutOf(data, e)
  {
    e := Envelope(FromBigEndian(data[5..9]), FromBigEndian(data[9..13]), data[13] as int, data[14..30], data[30..42],
                  data[42..]);
    WordIn(data[5..9]);
    WordIn(data[9..13]);
    assert data[..5] == data[0..4] + [data[4]];
    Rebuilt(data, e);
  }

  /** A proper file makes key derivation panic, whatever the passphrase, exactly when its header
      names no rounds or no threads. */
  lemma PanicsExactly(c: Codec, e: Envelope, passphrase: bytes)
    requires Fits(e)
    ensures Contents(c, Some(Layout(e)), passphrase) == Err(DerivationPanics) <==> e.time == 0 || e.threads == 0
  {
    ParseOfLayout(e);
  }

  function Sealed(c: Codec, passphrase: bytes, m: Remotes, chance: Chance): Envelope {
    var key := c.deriveKey(passphrase, chance.salt, ARGON2_TIME, ARGON2_MEMORY, ARGON2_THREADS);
    Envelope(ARGON2_TIME, ARGON2_MEMORY, ARGON2_THREADS, chance.salt, chance.nonce,
             c.seal(key, chance.nonce, c.marshal(m), AAD))
  }

  lemma SealedOpens(c: Codec, passphrase: bytes, m: Remotes, chance: Chance)
    requires Lawful(c) && ChanceOk(chance)
    ensures Contents(c, Some(Layout(Sealed(c, passphrase, m, chance))), passphrase) == Ok(m)
  {
    ParseOfLayout(Sealed(c, passphrase, m, chance));
  }

  // ---------------------------------------------------------------- the plain map it stands for

  datatype Operation =
    | SaveRemote(profile: RemoteProfile)
    | GetRemote(name: string)
    | ListRemotes
    | DeleteRemote(name: string)

  datatype Call = Call(op: Operation, chance: Chance)

  datatype Reply = Done | Profile(profile: RemoteProfile) | Names(names: seq<string>) | Failed(error: VaultError)

  /** Whether the operation gets as far as saving. */
  predicate Saves(m: Remotes, op: Operation) {
    op.SaveRemote? || (op.DeleteRemote? && op.name in m)
  }

  function Updated(m: Remotes, op: Operation): Remotes {
    match op
    case SaveRemote(profile) => m[profile.name := profile]
    case DeleteRemote(name) => m - {name}
    case _ => m
  }

  /** The calls on a plain map. A save that fails changes nothing, or, when the old file was
      removed on the way, leaves an empty map. */
  ghost function OnMap(m: Remotes, call: Call): (Remotes, Reply) {
    if !call.chance.readable then (m, Failed(ReadFailed))
    else if Saves(m, call.op) then
      match FateOf(call.chance)
      case Written => (Updated(m, call.op), Done)
      case Refused => (m, Failed(WriteFailed))
      case Removed => (map[], Failed(WriteFailed))
    else
      match call.op
      case GetRemote(name) => (m, if name in m then Profile(m[name]) else Failed(RemoteNotFound))
      case ListRemotes => (m, Names(SortedKeys(m.Keys)))
      case _ => (m, Done)
  }

  /** What a call finds in the file. */
  ghost function Found(c: Codec, file: Option<bytes>, passphrase: bytes, chance: Chance): Result<Remotes, VaultError> {
    if chance.readable then Contents(c, file, passphrase) else Err(ReadFailed)
  }

  /** A call is right when it does to the contents what it does to a plain map; when a file that
      cannot be read or opened makes it fail and stays as it is; and when the file changes only
      by a save, that is, is replaced, stays or goes as the save fares. */
  ghost predicate Refines(c: Codec, passphrase: bytes, before: Option<bytes>, after: Option<bytes>,
                          call: Call, reply: Reply)
  {
    match Found(c, before, passphrase, call.chance)
    case Err(e) => reply == Failed(e) && after == before
    case Ok(m) =>
      && reply == OnMap(m, call).1
      && Contents(c, after, passphrase) == Ok(OnMap(m, call).0)
      && (!Saves(m, call.op) || FateOf(call.chance) == Refused ==> after == before)
      && (Saves(m, call.op) && FateOf(call.chance) == Removed ==> after == None)
  }

  /** A failed call keeps the profiles exactly when it did not remove the file on the way to a
      failed save, or there were none. */
  lemma FailureKeepsExactly(c: Codec, passphrase: bytes, m: Remotes, before: Option<bytes>, after: Option<bytes>,
                            call: Call, reply: Reply)
    requires Refines(c, passphrase, before, after, call, reply) && reply.Failed?
    requires Contents(c, before, passphrase) == Ok(m)
    ensures Contents(c, after, passphrase) == Ok(m)
            <==> !(call.chance.readable && Saves(m, call.op) && FateOf(call.chance) == Removed) || m == map[]
  {
  }

  /** The old vault is gone and the new one did not make it: the profile saved before is lost,
      and later calls succeed on an empty vault. */
  lemma RemovedWitness(first: RemoteProfile, second: RemoteProfile, salt: bytes, nonce: bytes)
    ensures var removed := Chance(true, salt, nonce, true, false, true, false);
            MapReplies(map[first.name := first], [Call(SaveRemote(second), removed), Call(ListRemotes, removed)])
            == [Failed(WriteFailed), Names([])]
  {
    var removed := Chance(true, salt, nonce, true, false, true, false);
    var calls := [Call(SaveRemote(second), removed), Call(ListRemotes, removed)];
    assert calls[..0] == [] && calls[..1] == [calls[0]] && calls[..1][..0] == [];
    assert MapAfter(map[first.name := first], calls[..1]) == map[];
    var none: Remotes := map[];
    assert none.Keys == {};
    assert SortedKeys(none.Keys) == [];
  }

  ghost predicate CallOk(call: Call) {
    ChanceOk(call.chance)
  }

  class FileVault {
    const codec: Codec
    var file: Option<bytes>

    constructor (codec: Codec, file: Option<bytes>)
      ensures this.codec == codec && this.file == file
    {
      this.codec, this.file := codec, file;
    }

    method LoadStore(passphrase: bytes, chance: Chance) returns (r: Result<Remotes, VaultError>)
      ensures r == Found(codec, file, passphrase, chance)
    {
      if !chance.readable {
        return Err(ReadFailed);
      }
      if file.None? {
        return Ok(map[]);
      }
      var e := DecodePayload(file.value);
      if e.None? {
        return Err(Corrupted);
      }
      if e.value.time < 1 || e.value.threads < 1 {
        return Err(DerivationPanics);
      }
      var key := codec.deriveKey(passphrase, e.value.salt, e.value.time, e.value.memory, e.value.threads);
      var text := codec.open(key, e.value.nonce, e.value.ciphertext, AAD);
      if text.None? {
        return Err(InvalidPassword);
      }
      var store := codec.unmarshal(text.value);
      if store.None? {
        return Err(BadJson);
      }
      return Ok(store.value);
    }

    /** The payload goes to a temporary file, which is renamed to the vault. If that fails the
        vault is removed and the rename tried again; if that fails too, the vault may be gone. */
    method SaveStore(passphrase: bytes, store: Remotes, chance: Chance) returns (error: Option<VaultError>)
      requires Lawful(codec) && ChanceOk(chance)
      modifies this
      ensures match FateOf(chance)
              case Written => error == None && Contents(codec, file, passphrase) == Ok(store)
              case Refused => error == Some(WriteFailed) && file == old(file)
              case Removed => error == Some(WriteFailed) && file == None
      ensures error.None? <==> chance.prepared && (chance.renamed || chance.renamedAgain)
      ensures error.None? ==>
                var key := codec.deriveKey(passphrase, chance.salt, 3, 65536, 4);
                file == Some([0x55, 0x4E, 0x49, 0x53, 1, 0, 0, 0, 3, 0, 1, 0, 0, 4] + chance.salt + chance.nonce
                             + codec.seal(key, chance.nonce, codec.marshal(store), [0x55, 0x4E, 0x49, 0x53, 1]))
      ensures error.Some? ==>
                file == if chance.prepared && chance.removed then None else old(file)
    {
      HeaderWitness(chance.salt, chance.nonce, Sealed(codec, passphrase, store, chance).ciphertext);
      assert AAD == [0x55, 0x4E, 0x49, 0x53, 1];
      var payload := EncodePayload(Sealed(codec, passphrase, store, chance));
      if !chance.prepared {
        return Some(WriteFailed);
      }
      if !chance.renamed {
        if chance.removed {
          file := None;
        }
        if !chance.renamedAgain {
          return Some(WriteFailed);
        }
      }
      file := Some(payload[..]);
      SealedOpens(codec, passphrase, store, chance);
      return None;
    }

    method SaveRemoteBytes(passphrase: bytes, profile: RemoteProfile, chance: Chance)
      returns (error: Option<VaultError>)
      requires Lawful(codec) && ChanceOk(chance)
      modifies this
      ensures Refines(codec, passphrase, old(file), file, Call(SaveRemote(profile), chance),
                      if error.None? then Done else Failed(error.value))
    {
      var store := LoadStore(passphrase, chance);
      if store.Err? {
        return Some(store.error);
      }
      error := SaveStore(passphrase, store.value[profile.name := profile], chance);
    }

    method GetRemoteBytes(passphrase: bytes, name: string, chance: Chance)
      returns (r: Result<RemoteProfile, VaultError>)
      ensures Refines(codec, passphrase, file, file, Call(GetRemote(name), chance),
                      if r.Ok? then Profile(r.value) else Failed(r.error))
    {
      var store := LoadStore(passphrase, chance);
      if store.Err? {
        return Err(store.error);
      }
      if name !in store.value {
        return Err(RemoteNotFound);
      }
      return Ok(store.value[name]);
    }

    method ListRemotes(passphrase: bytes, chance: Chance) returns (r: Result<seq<string>, VaultError>)
      ensures Refines(codec, passphrase, file, file, Call(Operation.ListRemotes, chance),
                      if r.Ok? then Names(r.value) else Failed(r.error))
      ensures r.Ok? ==> InOrder(r.value)
    {
      var store := LoadStore(passphrase, chance);
      if store.Err? {
        return Err(store.error);
      }
      var names := [];
      var left := store.value.Keys;
      while left != {}
        invariant left <= store.value.Keys
        invariant forall k :: k in names <==> k in store.value.Keys - left
        invariant forall i, j :: 0 <= i < j < |names| ==> names[i] != names[j]
        decreases |left|
      {
        var k :| k in left;
        assert k !in names;
        names, left := names + [k], left - {k};
      }
      assert (set k | k in names) == store.value.Keys;
      var sorted := SortKeys(names);
      return Ok(sorted);
    }

    method DeleteRemote(passphrase: bytes, name: string, chance: Chance) returns (error: Option<VaultError>)
      requires Lawful(codec) && ChanceOk(chance)
      modifies this
      ensures Refines(codec, passphrase, old(file), file, Call(Operation.DeleteRemote(name), chance),
                      if error.None? then Done else Failed(error.value))
    {
      var store := LoadStore(passphrase, chance);
      if store.Err? {
        return Some(store.error);
      }
      if name !in store.value {
        return None;
      }
      error := SaveStore(passphrase, store.value - {name}, chance);
    }

    method Perform(passphrase: bytes, call: Call) returns (reply: Reply)
      requires Lawful(codec) && CallOk(call)
      modifies this
      ensures Refines(codec, passphrase, old(file), file, call, reply)
    {
      match call.op
      case SaveRemote(profile) =>
        var error := SaveRemoteBytes(passphrase, profile, call.chance);
        reply := if error.None? then Done else Failed(error.value);
      case GetRemote(name) =>
        var r := GetRemoteBytes(passphrase, name, call.chance);
        reply := if r.Ok? then Profile(r.value) else Failed(r.error);
      case ListRemotes =>
        var r := this.ListRemotes(passphrase, call.chance);
        reply := if r.Ok? then Names(r.value) else Failed(r.error);
      case DeleteRemote(name) =>
        var error := this.DeleteRemote(passphrase, name, call.chance);
        reply := if error.None? then Done else Failed(error.value);
    }

    /** A client making one call after another: the answers are those of a plain map, and the
        file ends up holding that map; on a file the passphrase does not open, every call
        fails and the file stays as it is. */
    method PerformAll(passphrase: bytes, calls: seq<Call>) returns (replies: seq<Reply>, ghost events: seq<Event>)
      requires Lawful(codec) && forall call :: call in calls ==> CallOk(call)
      modifies this
      ensures History(codec, passphrase, events) && CallsOf(events) == calls && RepliesOf(events) == replies
      ensures file == if events == [] then old(file) else events[|events| - 1].after
      ensures match Contents(codec, old(file), passphrase)
              case Ok(m) =>
                replies == MapReplies(m, calls) && Contents(codec, file, passphrase) == Ok(MapAfter(m, calls))
              case Err(e) =>
                file == old(file)
                && forall i :: 0 <= i < |replies| ==>
                     replies[i] == Failed(if calls[i].chance.readable then e else ReadFailed)
    {
      replies, events := [], [];
      for n := 0 to |calls|
        invariant |events| == n && CallsOf(events) == calls[..n] && RepliesOf(events) == replies
        invariant History(codec, passphrase, events)
        invariant events != [] ==> events[0].before == old(file)
        invariant file == if events == [] then old(file) else events[n - 1].after
      {
        ghost var before := file;
        assert calls[n] in calls && calls[..n + 1] == calls[..n] + [calls[n]];
        var reply := Perform(passphrase, calls[n]);
        replies := replies + [reply];
        OneMore(codec, passphrase, events, Event(calls[n], reply, before, file));
        events := events + [Event(calls[n], reply, before, file)];
      }
      assert calls[..|calls|] == calls;
      HistoryIsAMap(codec, passphrase, old(file), events);
    }
  }

  // ---------------------------------------------------------------- whole histories

  /** One call in a history: the file before and after, and the answer. */
  datatype Event = Event(call: Call, reply: Reply, before: Option<bytes>, after: Option<bytes>)

  /** Calls under one passphrase, each finding the file as the one before left it. */
  ghost predicate History(c: Codec, passphrase: bytes, events: seq<Event>) {
    && (forall i :: 0 <= i < |events| ==>
          Refines(c, passphrase, events[i].before, events[i].after, events[i].call, events[i].reply))
    && (forall i :: 0 < i < |events| ==> events[i].before == events[i - 1].after)
  }

  /** A history goes on from where it left the file. */
  lemma OneMore(c: Codec, passphrase: bytes, events: seq<Event>, e: Event)
    requires History(c, passphrase, events) && Refines(c, passphrase, e.before, e.after, e.call, e.reply)
    requires events != [] ==> e.before == events[|events| - 1].after
    ensures History(c, passphrase, events + [e])
    ensures CallsOf(events + [e]) == CallsOf(events) + [e.call]
    ensures RepliesOf(events + [e]) == RepliesOf(events) + [e.reply]
  {
  }

  function CallsOf(events: seq<Event>): seq<Call> {
    seq(|events|, i requires 0 <= i < |events| => events[i].call)
  }

  function RepliesOf(events: seq<Event>): seq<Reply> {
    seq(|events|, i requires 0 <= i < |events| => events[i].reply)
  }

  ghost function MapAfter(m: Remotes, calls: seq<Call>): Remotes
    decreases |calls|
  {
    if calls == [] then m else OnMap(MapAfter(m, calls[..|calls| - 1]), calls[|calls| - 1]).0
  }

  ghost function MapReplies(m: Remotes, calls: seq<Call>): seq<Reply> {
    seq(|calls|, i requires 0 <= i < |calls| => OnMap(MapAfter(m, calls[..i]), calls[i]).1)
  }

  /** Over any history, including reads and saves that fail, every answer is the one a plain
      map would give, and the file ends up holding that map. */
  lemma {:induction false} VaultIsAMap(c: Codec, passphrase: bytes, m: Remotes, events: seq<Event>, i: nat)
    requires History(c, passphrase, events) && i < |events|
    requires Contents(c, events[0].before, passphrase) == Ok(m)
    ensures events[i].reply == OnMap(MapAfter(m, CallsOf(events)[..i]), events[i].call).1
    ensures Contents(c, events[i].after, passphrase) == Ok(MapAfter(m, CallsOf(events)[..i + 1]))
  {
    assert CallsOf(events)[..i + 1][..i] == CallsOf(events)[..i];
    if i > 0 {
      VaultIsAMap(c, passphrase, m, events, i - 1);
    }
  }

  /** What the calls leave under a name, read off the calls: what the last save of that name put
      there, unless it was deleted since or a save that failed took the file with it. */
  function LastSaved(m: Remotes, calls: seq<Call>, name: string): Option<RemoteProfile>
    decreases |calls|
  {
    if calls == [] then Lookup(m, name)
    else
      var front, op, chance := calls[..|calls| - 1], calls[|calls| - 1].op, calls[|calls| - 1].chance;
      var before := LastSaved(m, front, name);
      var saves := op.SaveRemote? || (op.DeleteRemote? && LastSaved(m, front, op.name).Some?);
      if !chance.readable || !chance.prepared || !saves then before
      else if chance.renamed || chance.renamedAgain then
        match op
        case SaveRemote(profile) => if profile.name == name then Some(profile) else before
        case DeleteRemote(gone) => if gone == name then None else before
        case _ => before
      else if chance.removed then None
      else before
  }

  lemma {:induction false} MapTellsLastSaved(m: Remotes, calls: seq<Call>, name: string)
    ensures Lookup(MapAfter(m, calls), name) == LastSaved(m, calls, name)
    decreases |calls|
  {
    if calls != [] {
      var front, op := calls[..|calls| - 1], calls[|calls| - 1].op;
      MapTellsLastSaved(m, front, name);
      if op.DeleteRemote? { MapTellsLastSaved(m, front, op.name); }
    }
  }

  /** Over any history a look-up answers with what the last save of the name put there, or that
      there is no such name; and a listing names, in order, just the names that have one. */
  lemma AnswersTellLastSaved(c: Codec, passphrase: bytes, m: Remotes, events: seq<Event>, i: nat, name: string)
    requires History(c, passphrase, events) && i < |events| && events[i].call.chance.readable
    requires Contents(c, events[0].before, passphrase) == Ok(m)
    ensures var op, reply, last := events[i].call.op, events[i].reply, LastSaved(m, CallsOf(events)[..i], name);
      && (op == GetRemote(name) ==> reply == if last.Some? then Profile(last.value) else Failed(RemoteNotFound))
      && (op == ListRemotes ==> reply.Names? && InOrder(reply.names) && (name in reply.names <==> last.Some?))
  {
    VaultIsAMap(c, passphrase, m, events, i);
    MapTellsLastSaved(m, CallsOf(events)[..i], name);
    SortedIsInOrder(SortedKeys(MapAfter(m, CallsOf(events)[..i]).Keys));
  }

  /** Under a passphrase that does not open the file, every call fails, with the same error
      unless the file cannot even be read, and the file stays as it is. */
  lemma {:induction false} UnreadableStays(c: Codec, passphrase: bytes, error: VaultError, events: seq<Event>, i: nat)
    requires History(c, passphrase, events) && i < |events|
    requires Contents(c, events[0].before, passphrase) == Err(error)
    ensures events[i].reply == Failed(if events[i].call.chance.readable then error else ReadFailed)
    ensures events[i].after == events[0].before
  {
    if i > 0 {
      UnreadableStays(c, passphrase, error, events, i - 1);
    }
  }

  lemma HistoryIsAMap(c: Codec, passphrase: bytes, start: Option<bytes>, events: seq<Event>)
    requires History(c, passphrase, events) && (events != [] ==> events[0].before == start)
    ensures var end := if events == [] then start else events[|events| - 1].after;
            match Contents(c, start, passphrase)
            case Ok(m) =>
              && RepliesOf(events) == MapReplies(m, CallsOf(events))
              && Contents(c, end, passphrase) == Ok(MapAfter(m, CallsOf(events)))
            case Err(e) =>
              end == start
              && forall i :: 0 <= i < |events| ==>
                   RepliesOf(events)[i] == Failed(if events[i].call.chance.readable then e else ReadFailed)
  {
    match Contents(c, start, passphrase)
    case Ok(m) =>
      forall i | 0 <= i < |events| ensures RepliesOf(events)[i] == MapReplies(m, CallsOf(events))[i] {
        VaultIsAMap(c, passphrase, m, events, i);
      }
      if events != [] {
        VaultIsAMap(c, passphrase, m, events, |events| - 1);
        assert CallsOf(events)[..|events|] == CallsOf(events);
      }
    case Err(e) =>
      forall i | 0 <= i < |events|
        ensures events[i].reply == Failed(if events[i].call.chance.readable then e else ReadFailed)
                && events[i].after == start
      {
        UnreadableStays(c, passphrase, e, events, i);
      }
  }
}
