/**
 * The configuration source itself: a fixed name and ordinal, the loaded
 * properties, and lookups that decrypt `ENC(...)` values and fall back to the
 * stored value when decryption is not possible.
 */
module JasyptSource {
  import opened Wrappers
  import opened SearchPath
  import opened Bootstrap
  import opened Loader

  const SourceName := "jasypt-config"
  /** Ordinal of Quarkus's `application.properties` source. */
  const ApplicationPropertiesOrdinal := 250
  /** Ordinal of MicroProfile's environment-variable source. */
  const EnvConfigSourceOrdinal := 300

  /** The marker of an encrypted value: `ENC(` ... `)`. */
  predicate IsEncryptedValue(v: string) {
    StartsWith(v, "ENC(") && |v| >= 5 && v[|v| - 1] == ')'
  }

  /** The ciphertext inside the marker. */
  function InnerEncryptedValue(v: string): string
    requires IsEncryptedValue(v)
  {
    v[4..|v| - 1]
  }

  /** A ciphertext wrapped in the marker, as the encoder prints it. */
  function Wrap(cipher: string): string {
    "ENC(" + cipher + ")"
  }

  /** Wrapping and unwrapping are inverse. */
  lemma WrapRoundTrip(cipher: string, v: string)
    ensures IsEncryptedValue(Wrap(cipher)) && InnerEncryptedValue(Wrap(cipher)) == cipher
    ensures IsEncryptedValue(v) ==> Wrap(InnerEncryptedValue(v)) == v
  {
  }

  /**
   * The string encryptor's decryption: `None` stands for the
   * `EncryptionOperationNotPossibleException` it throws (wrong password,
   * corrupt ciphertext).
   */
  type Decryptor = (EncryptorSettings, string) -> Option<string>

  /** Why `EncryptableProperties.getProperty` throws. */
  datatype DecryptionFailure = EncryptionOperationNotPossible

  class JasyptConfigSource {
    /** The raw properties, as loaded. */
    const properties: Properties
    /** The settings of the encryptor behind the encryptable view of `properties`. */
    const settings: EncryptorSettings
    const decrypt: Decryptor

    constructor (properties: Properties, settings: EncryptorSettings, decrypt: Decryptor)
      ensures this.properties == properties && this.settings == settings && this.decrypt == decrypt
    {
      this.properties := properties;
      this.settings := settings;
      this.decrypt := decrypt;
    }

    function GetName(): (r: string)
      ensures r == SourceName
    {
      SourceName
    }

    /** Above `application.properties`, below the environment variables. */
    function GetOrdinal(): (r: int)
      ensures ApplicationPropertiesOrdinal < r < EnvConfigSourceOrdinal
    {
      275
    }

    /**
     * `encryptableProperties.getProperty(key)`: nothing for a missing key, a
     * plain value as stored, a marked value decrypted; it throws exactly when
     * a marked value does not decrypt.
     */
    function EncryptableGet(key: string): (r: Result<Option<string>, DecryptionFailure>)
      ensures r == Success(None) <==> key !in properties
      ensures r.Failure? <==>
        key in properties && IsEncryptedValue(properties[key]) && decrypt(settings, InnerEncryptedValue(properties[key])).None?
      ensures key in properties && !IsEncryptedValue(properties[key]) ==> r == Success(Some(properties[key]))
      ensures key in properties && IsEncryptedValue(properties[key]) && r.Success? ==>
        r.value == decrypt(settings, InnerEncryptedValue(properties[key]))
    {
      if key !in properties then Success(None)
      else if !IsEncryptedValue(properties[key]) then Success(Some(properties[key]))
      else match decrypt(settings, InnerEncryptedValue(properties[key]))
        case Some(plain) => Success(Some(plain))
        case None => Failure(EncryptionOperationNotPossible)
    }

    /** `getValue`: the decrypted value, or the stored one when decryption is not possible. */
    function GetValue(key: string): (r: Option<string>)
      ensures r.None? <==> key !in properties
      ensures key in properties && !IsEncryptedValue(properties[key]) ==> r == Some(properties[key])
      ensures key in properties && IsEncryptedValue(properties[key]) ==>
        var plain := decrypt(settings, InnerEncryptedValue(properties[key]));
        && (plain.Some? ==> r == plain)
        && (plain.None? ==> r == Some(properties[key]))
    {
      match EncryptableGet(key)
      case Success(v) => v
      case Failure(_) => Lookup(properties, key)
    }

    /** `getProperties`: every loaded key, each with its `getValue`. */
    method GetProperties() returns (m: map<string, string>)
      ensures m.Keys == properties.Keys
      ensures forall key :: key in m ==> GetValue(key) == Some(m[key])
    {
      m := map[];
      var names := properties.Keys;
      while names != {}
        invariant names <= properties.Keys
        invariant m.Keys == properties.Keys - names
        invariant forall key :: key in m ==> GetValue(key) == Some(m[key])
        decreases names
      {
        var name :| name in names;
        m := m[name := GetValue(name).value];
        names := names - {name};
      }
    }
  }

  /** Every source has the same name and ordinal, whatever it loaded. */
  lemma NameAndOrdinalFixed(a: JasyptConfigSource, b: JasyptConfigSource)
    ensures a.GetName() == b.GetName() == "jasypt-config"
    ensures a.GetOrdinal() == b.GetOrdinal() == 275
  {
  }

  /** A lookup returns either the stored value or a successful decryption of it. */
  lemma ValueIsStoredOrDecrypted(src: JasyptConfigSource, key: string)
    requires key in src.properties
    ensures var v := src.properties[key];
      || src.GetValue(key) == Some(v)
      || (IsEncryptedValue(v) && src.GetValue(key) == src.decrypt(src.settings, InnerEncryptedValue(v)))
  {
  }

  /** A value written as `ENC(c)` reads back as the plaintext `c` decrypts to. */
  lemma WrappedCipherDecrypts(src: JasyptConfigSource, key: string, cipher: string, plain: string)
    requires key in src.properties && src.properties[key] == Wrap(cipher)
    requires src.decrypt(src.settings, cipher) == Some(plain)
    ensures src.GetValue(key) == Some(plain)
  {
    WrapRoundTrip(cipher, Wrap(cipher));
  }

  /** With the wrong password the lookup yields the stored `ENC(...)` text, and no error. */
  lemma WrongPasswordPassesThrough(src: JasyptConfigSource, key: string, cipher: string)
    requires key in src.properties && src.properties[key] == Wrap(cipher)
    requires src.decrypt(src.settings, cipher).None?
    ensures src.GetValue(key) == Some(Wrap(cipher))
    ensures StartsWith(src.GetValue(key).value, "ENC(")
  {
    WrapRoundTrip(cipher, Wrap(cipher));
  }

  /** The file `a=1`, `b=ENC(c)` with `c` the ciphertext of `2` under the source's settings. */
  lemma FixtureValues(src: JasyptConfigSource, cipher: string)
    requires src.properties == map["a" := "1", "b" := Wrap(cipher)]
    requires src.decrypt(src.settings, cipher) == Some("2")
    ensures src.GetValue("a") == Some("1")
    ensures src.GetValue("b") == Some("2")
    ensures forall k :: k != "a" && k != "b" ==> src.GetValue(k).None?
  {
    WrappedCipherDecrypts(src, "b", cipher, "2");
  }

  /**
   * The constructor: load the properties along the resolved search path, then
   * build the encryptor from the resolved password and algorithm.
   */
  method NewSource<E>(d: Defaults, p: Process, open: Opener<E>, decrypt: Decryptor)
    returns (r: Result<JasyptConfigSource, LoadFailure<E>>)
    ensures LoadOutcome(d, p, open).Failure? ==> r == Failure(LoadOutcome(d, p, open).error)
    ensures LoadOutcome(d, p, open).Success? ==>
      && r.Success? && fresh(r.value)
      && r.value.properties == LoadOutcome(d, p, open).value
      && r.value.settings == EncryptorSettingsOf(d, p)
      && r.value.decrypt == decrypt
  {
    var loaded := LoadProperties(SearchPathOf(d, p), open);
    if loaded.Failure? && d.onNoSource == Lenient {
      loaded := Success(map[]);
    }
    match loaded
    case Failure(e) =>
      return Failure(e);
    case Success(props) =>
      var source := new JasyptConfigSource(props, EncryptorSettingsOf(d, p), decrypt);
      return Success(source);
  }
}
