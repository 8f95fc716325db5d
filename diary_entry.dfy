/** The client-side encryption of the diary component
    (src/components/DiaryEntry.tsx): the salt, the key derivation, the
    `base64(iv) ":" base64(ciphertext)` envelope, the batch decryption of a
    snapshot and the guarded save.

    PBKDF2 (RFC 8018, section 5.2), AES-GCM (NIST SP 800-38D), `TextEncoder`
    and `TextDecoder` are foreign: they are the fields of `Primitives`, total
    deterministic functions about which nothing is assumed except where a
    lemma names the property it needs. The random IV and salt bytes are
    inputs. */
module DiaryEntry {
  import opened Wrappers
  import opened JsString
  import opened Base64
  import Browser

  /** An AES-GCM key handle; only the primitives look inside it. */
  datatype CryptoKey = CryptoKey(handle: nat)

  /** The foreign primitives. `deriveKey` is `importKey` followed by PBKDF2
      with 100000 iterations of SHA-256 into a 256-bit AES-GCM key, `None`
      where the browser rejects; `seal` is AES-GCM encryption (key, iv,
      plaintext) and `open` its decryption, `None` where it throws. */
  datatype Primitives = Primitives(
    utf8Encode: string -> seq<byte>,
    utf8Decode: seq<byte> -> string,
    deriveKey: (seq<byte>, seq<byte>) -> Option<CryptoKey>,
    seal: (CryptoKey, seq<byte>, seq<byte>) -> seq<byte>,
    open: (CryptoKey, seq<byte>, seq<byte>) -> Option<seq<byte>>)

  const IvLength: nat := 12
  const SaltLength: nat := 16
  const SaltStorageKey: string := "encryptionSalt"
  const DecryptionFailed: string := "[Decryption failed]"

  /** A 12-byte IV encodes to 16 characters and needs no padding. */
  lemma IvEncoding(iv: seq<byte>)
    requires |iv| == IvLength
    ensures |Btoa(iv)| == 16 && '=' !in Btoa(iv)
  {
    var u := EncodeUnpadded(iv);
    UnpaddedLengthClosed(12);
    assert |u| == 16;
    assert Btoa(iv) == u + "";
    assert u + "" == u;
    forall k | 0 <= k < |u| ensures u[k] != '=' {
      assert IsAlphabetChar(u[k]);
    }
  }

  /** A 16-byte salt encodes to 24 characters, the last two being "==". */
  lemma SaltEncoding(salt: seq<byte>)
    requires |salt| == SaltLength
    ensures |Btoa(salt)| == 24 && Btoa(salt)[22..] == "=="
  {
    var u := EncodeUnpadded(salt);
    UnpaddedLengthClosed(16);
    assert |u| == 22;
    assert Btoa(salt) == u + "==";
  }

  /** `generateSalt(length)`: `length` random bytes (`getRandomValues` writes
      them into a fresh `Uint8Array`), as base64. The default salt is 24
      characters ending in "==", and `atob` gives the bytes back. */
  method GenerateSalt(length: nat, random: seq<byte>) returns (s: string)
    requires |random| >= length
    ensures s == Btoa(random[..length])
    ensures Atob(s) == Some(random[..length])
    ensures length == SaltLength ==> |s| == 24 && s[22..] == "=="
  {
    var bytes := new byte[length](i => if 0 <= i < |random| then random[i] else 0);
    assert bytes[..] == random[..length];
    s := Btoa(bytes[..]);
    AtobBtoa(random[..length]);
    if length == SaltLength {
      SaltEncoding(random[..length]);
    }
  }

  /** The salt as `deriveKey` reads it: `atob` throws on a malformed stored
      salt, and that exception is caught like a failed derivation. */
  function DeriveKey(p: Primitives, password: string, saltB64: string): (k: Option<CryptoKey>)
    ensures Atob(saltB64) == None ==> k == None
    ensures Atob(saltB64).Some? ==> k == p.deriveKey(p.utf8Encode(password), Atob(saltB64).value)
  {
    match Atob(saltB64)
    case None => None
    case Some(salt) => p.deriveKey(p.utf8Encode(password), salt)
  }

  /** The stored form of an encrypted text. */
  function FormatEnvelope(iv: seq<byte>, ct: seq<byte>): string {
    Btoa(iv) + ":" + Btoa(ct)
  }

  /** `decrypt`'s parsing half: split on every ':', keep pieces 0 and 1 and
      decode each with `atob`. Without a ':' the second piece is `undefined`,
      which `atob` reads as the text "undefined" and rejects. */
  function ParseEnvelope(ciphertext: string): Option<(seq<byte>, seq<byte>)> {
    var parts := Split(ciphertext, ':');
    var ivB64 := parts[0];
    var dataB64 := if |parts| >= 2 then parts[1] else "undefined";
    match Atob(ivB64)
    case None => None
    case Some(iv) =>
      match Atob(dataB64)
      case None => None
      case Some(data) => Some((iv, data))
  }

  /** `encrypt`: a fresh 12-byte IV, the AES-GCM ciphertext of the UTF-8
      bytes, both base64-encoded around one ':'. */
  function Encrypt(p: Primitives, content: string, key: CryptoKey, iv: seq<byte>): string
    requires |iv| == IvLength
  {
    FormatEnvelope(iv, p.seal(key, iv, p.utf8Encode(content)))
  }

  /** The first 16 characters are the IV, unpadded, then the one ':' and then
      the encoded ciphertext. */
  lemma EncryptLayout(p: Primitives, content: string, key: CryptoKey, iv: seq<byte>)
    requires |iv| == IvLength
    ensures var s := Encrypt(p, content, key, iv);
      && |s| > 16 && s[16] == ':' && s[..16] == Btoa(iv) && '=' !in s[..16]
      && s[17..] == Btoa(p.seal(key, iv, p.utf8Encode(content)))
  {
    IvEncoding(iv);
    var s := Encrypt(p, content, key, iv);
    var ct := Btoa(p.seal(key, iv, p.utf8Encode(content)));
    assert s == Btoa(iv) + ":" + ct;
    assert s[..16] == Btoa(iv);
    assert s[17..] == ct;
  }

  /** `decrypt`: `Err` where `atob` or AES-GCM throws; the decoded text
      otherwise (`TextDecoder` replaces malformed input and never throws). */
  function Decrypt(p: Primitives, ciphertext: string, key: CryptoKey): Result<string, string> {
    match ParseEnvelope(ciphertext)
    case None => Err("InvalidCharacterError")
    case Some((iv, data)) =>
      match p.open(key, iv, data)
      case None => Err("OperationError")
      case Some(plain) => Ok(p.utf8Decode(plain))
  }

  /** An envelope splits into exactly the two encodings. */
  lemma EnvelopeParts(iv: seq<byte>, ct: seq<byte>)
    ensures Split(FormatEnvelope(iv, ct), ':') == [Btoa(iv), Btoa(ct)]
  {
    BtoaHasNoColon(iv);
    BtoaHasNoColon(ct);
    SplitAtSeparator(Btoa(iv), Btoa(ct), ':');
    SplitWithoutSeparator(Btoa(ct), ':');
  }

  /** Parsing a formatted envelope recovers the IV and the ciphertext. */
  lemma EnvelopeRoundTrip(iv: seq<byte>, ct: seq<byte>)
    ensures ParseEnvelope(FormatEnvelope(iv, ct)) == Some((iv, ct))
  {
    EnvelopeParts(iv, ct);
    AtobBtoa(iv);
    AtobBtoa(ct);
  }

  /** Pieces after the second are ignored. */
  lemma EnvelopeExtraPiecesIgnored(iv: seq<byte>, ct: seq<byte>, rest: string)
    ensures ParseEnvelope(FormatEnvelope(iv, ct) + ":" + rest) == Some((iv, ct))
  {
    BtoaHasNoColon(iv);
    BtoaHasNoColon(ct);
    var s := FormatEnvelope(iv, ct) + ":" + rest;
    assert s == Btoa(iv) + [':'] + (Btoa(ct) + [':'] + rest);
    SplitAtSeparator(Btoa(iv), Btoa(ct) + [':'] + rest, ':');
    SplitAtSeparator(Btoa(ct), rest, ':');
    AtobBtoa(iv);
    AtobBtoa(ct);
  }

  lemma AtobUndefined()
    ensures Atob("undefined") == None
  {
    var u := "undefined";
    assert forall k :: 0 <= k < |u| ==> !IsAsciiWhitespace(u[k]);
    assert RemoveAsciiWhitespace(u) == u;
    assert StripPadding(u) == u;
    assert |u| == 9;
    assert |StripPadding(RemoveAsciiWhitespace(u))| % 4 == 1;
  }

  /** A text without ':' is never a valid envelope. */
  lemma EnvelopeNeedsSeparator(s: string)
    requires ':' !in s
    ensures ParseEnvelope(s) == None
  {
    SplitWithoutSeparator(s, ':');
    AtobUndefined();
  }

  /** Decryption undoes encryption whenever AES-GCM opens what it sealed
      under the same key and IV, and UTF-8 decoding undoes encoding; both are
      properties of the primitives, taken here as hypotheses. */
  lemma DecryptEncrypt(p: Primitives, content: string, key: CryptoKey, iv: seq<byte>)
    requires |iv| == IvLength
    requires p.open(key, iv, p.seal(key, iv, p.utf8Encode(content))) == Some(p.utf8Encode(content))
    requires p.utf8Decode(p.utf8Encode(content)) == content
    ensures Decrypt(p, Encrypt(p, content, key, iv), key) == Ok(content)
  {
    EnvelopeRoundTrip(iv, p.seal(key, iv, p.utf8Encode(content)));
  }

  /** A Firestore document of the "diaryEntries" collection. */
  datatype StoredEntry = StoredEntry(userId: string, encryptedContent: string, createdAt: int, salt: string)
  datatype Snapshot = Snapshot(id: string, data: StoredEntry)

  /** `{ ...data, id: doc.id, decryptedContent }`. */
  datatype DiaryEntryData = DiaryEntryData(
    id: string, userId: string, encryptedContent: string, createdAt: int, salt: string,
    decryptedContent: string)

  /** One document of the snapshot, its failure replaced by the sentinel. */
  function DecryptOne(p: Primitives, key: CryptoKey, d: Snapshot): (e: DiaryEntryData)
    ensures e.id == d.id && e.userId == d.data.userId
    ensures e.encryptedContent == d.data.encryptedContent
    ensures e.createdAt == d.data.createdAt && e.salt == d.data.salt
    ensures Decrypt(p, d.data.encryptedContent, key).Err? ==> e.decryptedContent == DecryptionFailed
    ensures Decrypt(p, d.data.encryptedContent, key).Ok? ==>
      e.decryptedContent == Decrypt(p, d.data.encryptedContent, key).value
  {
    var content := match Decrypt(p, d.data.encryptedContent, key)
      case Ok(t) => t
      case Err(_) => DecryptionFailed;
    DiaryEntryData(d.id, d.data.userId, d.data.encryptedContent, d.data.createdAt, d.data.salt, content)
  }

  /** The snapshot callback's `map`: one entry per document, in order. */
  function DecryptBatch(p: Primitives, key: CryptoKey, docs: seq<Snapshot>): (r: seq<DiaryEntryData>)
    ensures |r| == |docs|
    ensures forall i :: 0 <= i < |docs| ==> r[i] == DecryptOne(p, key, docs[i])
  {
    if docs == [] then [] else [DecryptOne(p, key, docs[0])] + DecryptBatch(p, key, docs[1..])
  }

  /** Documents this component wrote with `key` and primitives that round-trip
      decrypt to the texts they were made from; the sentinel never shows. */
  lemma {:induction false} DecryptBatchOfOwnEntries(
    p: Primitives, key: CryptoKey, docs: seq<Snapshot>, texts: seq<string>, ivs: seq<seq<byte>>)
    requires |texts| == |docs| == |ivs|
    requires forall i :: 0 <= i < |docs| ==> |ivs[i]| == IvLength
    requires forall i :: 0 <= i < |docs| ==>
      docs[i].data.encryptedContent == Encrypt(p, texts[i], key, ivs[i])
    requires forall i :: 0 <= i < |docs| ==>
      p.open(key, ivs[i], p.seal(key, ivs[i], p.utf8Encode(texts[i]))) == Some(p.utf8Encode(texts[i]))
    requires forall i :: 0 <= i < |docs| ==> p.utf8Decode(p.utf8Encode(texts[i])) == texts[i]
    ensures forall i :: 0 <= i < |docs| ==> DecryptBatch(p, key, docs)[i].decryptedContent == texts[i]
  {
    forall i | 0 <= i < |docs|
      ensures DecryptBatch(p, key, docs)[i].decryptedContent == texts[i]
    {
      DecryptEncrypt(p, texts[i], key, ivs[i]);
    }
  }

  /** The component's state. `user` is the uid of `auth.currentUser`. */
  class DiaryEntryView {
    var password: string
    var key: Option<CryptoKey>
    var salt: string
    var text: string
    var entries: seq<DiaryEntryData>
    var loading: bool
    const user: Option<string>
    const storage: Browser.LocalStorage

    constructor (user: Option<string>, storage: Browser.LocalStorage)
      ensures this.user == user && this.storage == storage
      ensures password == "" && key == None && salt == "" && text == ""
      ensures entries == [] && !loading
    {
      this.user := user;
      this.storage := storage;
      password := "";
      key := None;
      salt := "";
      text := "";
      entries := [];
      loading := false;
    }

    /** The effect that runs when the password changes. An empty password
        clears the key and touches nothing else. Otherwise the stored salt
        is reused when present and non-empty, and a fresh one is generated
        and stored when it is absent or empty; the key is the derivation
        from that salt, `None` when the derivation throws. */
    method Derive(p: Primitives, random: seq<byte>)
      requires |random| >= SaltLength
      modifies this`key, this`salt, storage
      ensures password == "" ==>
        key == None && salt == old(salt) && storage.items == old(storage.items)
      ensures password != "" ==>
        var stored := old(storage.items);
        var reuse := SaltStorageKey in stored && stored[SaltStorageKey] != "";
        && (reuse ==> salt == stored[SaltStorageKey] && storage.items == stored)
        && (!reuse ==> salt == Btoa(random[..SaltLength]) && storage.items == stored[SaltStorageKey := salt])
        && key == DeriveKey(p, password, salt)
    {
      if password == "" {
        key := None;
        return;
      }
      var localSalt := storage.GetItem(SaltStorageKey);
      var s: string;
      if localSalt == None || localSalt == Some("") {
        s := GenerateSalt(SaltLength, random);
        storage.SetItem(SaltStorageKey, s);
      } else {
        s := localSalt.value;
      }
      salt := s;
      key := DeriveKey(p, password, s);
    }

    /** The snapshot listener: no key leaves no entries; otherwise every
        document is decrypted, in order. */
    method OnSnapshot(p: Primitives, docs: seq<Snapshot>)
      modifies this`entries
      ensures key == None ==> entries == []
      ensures key != None ==> entries == DecryptBatch(p, key.value, docs)
    {
      if key == None {
        entries := [];
        return;
      }
      entries := DecryptBatch(p, key.value, docs);
    }

    /** Whether `saveEntry` goes past its guard. */
    predicate CanSave()
      reads this
    {
      key != None && Trim(text) != "" && user != None
    }

    /** `saveEntry`. Past the guard it encrypts the trimmed text and hands the
        document to `addDoc` (returned as `request`). `encryptError` is the
        outcome of `encrypt`, which throws when AES-GCM rejects or when the
        ciphertext is too long to spread into `String.fromCharCode`; then no
        document is written. `writeError` is the outcome of the write. The
        text is cleared only when both succeed, a failure raises an alert, and
        `loading` ends false. When the guard fails nothing happens at all. */
    method SaveEntry(p: Primitives, iv: seq<byte>, serverTime: int,
                     encryptError: Option<string>, writeError: Option<string>)
      returns (request: Option<StoredEntry>, alert: Option<string>)
      requires |iv| == IvLength
      modifies this`loading, this`text
      ensures !old(CanSave()) ==>
        request == None && alert == None && text == old(text) && loading == old(loading)
      ensures old(CanSave()) && encryptError != None ==>
        && request == None && !loading && text == old(text)
        && alert == Some("Failed to save diary: " + encryptError.value)
      ensures old(CanSave()) && encryptError == None ==>
        && request == Some(StoredEntry(user.value, Encrypt(p, Trim(old(text)), key.value, iv), serverTime, salt))
        && !loading
        && (writeError == None ==> text == "" && alert == None)
        && (writeError != None ==>
              text == old(text) && alert == Some("Failed to save diary: " + writeError.value))
    {
      request, alert := None, None;
      if key == None || Trim(text) == "" || user == None {
        return;
      }
      loading := true;
      match encryptError {
        case Some(message) =>
          alert := Some("Failed to save diary: " + message);
        case None =>
          var encryptedContent := Encrypt(p, Trim(text), key.value, iv);
          request := Some(StoredEntry(user.value, encryptedContent, serverTime, salt));
          match writeError {
            case None => text := "";
            case Some(message) => alert := Some("Failed to save diary: " + message);
          }
      }
      loading := false;
    }

    /** A speech result is appended after one separating space. */
    method AppendTranscript(transcript: string)
      modifies this`text
      ensures text == old(text) + " " + transcript
    {
      text := text + " " + transcript;
    }
  }
}
