/**
 * The command-line encoder (`main`): each argument becomes one line
 * `<argument> -> ENC(<ciphertext>)`; no argument is a usage error.
 */
module Cli {
  import opened Wrappers
  import opened Bootstrap
  import opened Loader
  import opened JasyptSource

  const UsageMessage := "Syntax: JasyptConfigSource <propertyToEncrypt>..."

  /** The exceptions the string encryptor throws (an unknown algorithm, a failed cipher). */
  datatype EncryptionException = InitializationFailed | OperationNotPossible

  /**
   * The string encryptor's encryption. The `nat` is the position of the
   * call, standing for the random salt and IV drawn for it, so equal
   * arguments need not give equal ciphertexts.
   */
  type Encryptor = (EncryptorSettings, nat, string) -> Result<string, EncryptionException>

  /**
   * What `main` ends with: the printed lines, a usage error and exit status,
   * a failed construction, or the lines printed before an encryption threw.
   */
  datatype CliOutcome<E> =
    | Printed(lines: seq<string>)
    | UsageError(message: string, exitStatus: int)
    | ConstructionFailed(failure: LoadFailure<E>)
    | EncryptionFailed(lines: seq<string>, exception: EncryptionException)

  /**
   * A value the encoder printed as `ENC(cipher)`, pasted into the loaded
   * properties, reads back as the argument it encrypted, provided the
   * source's decryption inverts that encryption.
   */
  lemma EncodedValueReadsBack(src: JasyptConfigSource, encrypt: Encryptor, i: nat, arg: string, key: string)
    requires encrypt(src.settings, i, arg).Success?
    requires src.decrypt(src.settings, encrypt(src.settings, i, arg).value) == Some(arg)
    requires key in src.properties && src.properties[key] == Wrap(encrypt(src.settings, i, arg).value)
    ensures src.GetValue(key) == Some(arg)
  {
    WrappedCipherDecrypts(src, key, encrypt(src.settings, i, arg).value, arg);
  }

  /** One line of output. */
  function EncodedLine(arg: string, cipher: string): string {
    arg + " -> " + Wrap(cipher)
  }

  /** `lines` are the lines for the first `|lines|` arguments, each of which encrypted. */
  predicate EncodedPrefix(lines: seq<string>, args: seq<string>, settings: EncryptorSettings, encrypt: Encryptor) {
    && |lines| <= |args|
    && forall i :: 0 <= i < |lines| ==>
         && encrypt(settings, i, args[i]).Success?
         && lines[i] == EncodedLine(args[i], encrypt(settings, i, args[i]).value)
  }

  /**
   * The body of `main(args)` for a source built with defaults `d`: with
   * arguments, it builds the source first, so it fails like the constructor
   * when no property file loads; then it prints one line per argument until
   * an encryption throws.
   */
  method EncodeWith<E>(args: seq<string>, d: Defaults, p: Process, open: Opener<E>, decrypt: Decryptor, encrypt: Encryptor)
    returns (out: CliOutcome<E>)
    ensures args == [] ==> out == UsageError(UsageMessage, 1)
    ensures args != [] && LoadOutcome(d, p, open).Failure? ==>
      out == ConstructionFailed(LoadOutcome(d, p, open).error)
    ensures args != [] && LoadOutcome(d, p, open).Success? ==> out.Printed? || out.EncryptionFailed?
    ensures out.Printed? ==>
      |out.lines| == |args| && EncodedPrefix(out.lines, args, EncryptorSettingsOf(d, p), encrypt)
    ensures out.EncryptionFailed? ==>
      && |out.lines| < |args|
      && EncodedPrefix(out.lines, args, EncryptorSettingsOf(d, p), encrypt)
      && encrypt(EncryptorSettingsOf(d, p), |out.lines|, args[|out.lines|]) == Failure(out.exception)
  {
    if args == [] {
      return UsageError(UsageMessage, 1);
    }
    var source := NewSource(d, p, open, decrypt);
    if source.Failure? {
      return ConstructionFailed(source.error);
    }
    var settings := source.value.settings;
    assert settings == EncryptorSettingsOf(d, p);
    var lines := [];
    for i := 0 to |args|
      invariant |lines| == i
      invariant EncodedPrefix(lines, args, settings, encrypt)
    {
      var cipher := encrypt(settings, i, args[i]);
      if cipher.Failure? {
        return EncryptionFailed(lines, cipher.error);
      }
      lines := lines + [EncodedLine(args[i], cipher.value)];
    }
    return Printed(lines);
  }

  /** `main(args)`, which always builds the source with the standard defaults. */
  method EncodeArguments<E>(args: seq<string>, p: Process, open: Opener<E>, decrypt: Decryptor, encrypt: Encryptor)
    returns (out: CliOutcome<E>)
    ensures args == [] ==> out == UsageError(UsageMessage, 1)
    ensures args != [] && LoadOutcome(StandardDefaults, p, open).Failure? ==>
      out == ConstructionFailed(LoadOutcome(StandardDefaults, p, open).error)
    ensures args != [] && LoadOutcome(StandardDefaults, p, open).Success? ==> out.Printed? || out.EncryptionFailed?
    ensures out.Printed? ==>
      |out.lines| == |args| && EncodedPrefix(out.lines, args, EncryptorSettingsOf(StandardDefaults, p), encrypt)
    ensures out.EncryptionFailed? ==>
      && |out.lines| < |args|
      && EncodedPrefix(out.lines, args, EncryptorSettingsOf(StandardDefaults, p), encrypt)
      && encrypt(EncryptorSettingsOf(StandardDefaults, p), |out.lines|, args[|out.lines|]) == Failure(out.exception)
  {
    out := EncodeWith(args, StandardDefaults, p, open, decrypt, encrypt);
  }
}
