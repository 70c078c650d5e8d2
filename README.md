# Jasypt configuration source, modelled in Dafny

A model of `JasyptConfigSource`, a MicroProfile configuration source that loads a
property file and decrypts the values stored in it as `ENC(<ciphertext>)`. The model
covers:

- how an environment-variable name is derived from a dotted parameter name
  (`jasypt.password` becomes `JASYPT_PASSWORD`);
- how a bootstrap parameter (password, algorithm, search path) is resolved:
  environment variable, then system property, then default;
- how the comma-separated search path is split (exactly as Java's `String.split(",")`
  does), how a `classpath:` location is told from a filesystem path, and how the
  locations are tried in order until one opens and parses (`loadProperties`, with its
  `lastException`);
- how a value is looked up: decrypted when it carries the `ENC(...)` marker and
  decryption succeeds, the stored value otherwise, never an error (`getValue`), and the
  map of all values over exactly the loaded keys (`getProperties`);
- the fixed name and ordinal, and the command-line encoder `main`.

Files, one module each: `wrappers.dfy` (Option, Result), `env_var_names.dfy`,
`search_path.dfy`, `bootstrap.dfy`, `loader.dfy`, `jasypt_source.dfy` (the class) and
`cli.dfy`.

The process environment and the system properties are the two maps of a `Process`.
Opening and parsing one location is an `Opener`, a function from a location to either
the parsed properties or the exception raised. Encryption and decryption are function
parameters.

The class `JasyptConfigSource` keeps the source's two final fields as `const` fields.
These are the loaded `properties` and the encryptor settings (with the decryption
function) behind `encryptableProperties`. The Java constructor can throw, but a Dafny
constructor cannot fail, so construction is the method `NewSource`. It returns the
new object or the load failure.

Where the code and its tests disagree, the model follows the code:

- The test at `JasyptConfigSourceTest.java` lines 61-66 expects an empty map when no file
  is found. The code (lines 103-107) throws. The model fails construction by default
  (`FailurePolicy.Strict`). Lenient behaviour exists only as the explicit `Lenient`
  value of the `onNoSource` field of `Defaults`.
- The test at line 102 looks for a name starting `JasyptProperties[source=`. The code
  (line 44) returns the constant `jasypt-config`, and so does the model.
- No parameter can be missing: every `property` call in the code passes a default.
  So there is no missing-parameter error.
- The load failure names the list of locations and, as its cause, only the LAST
  exception. Earlier exceptions are not kept.

The subclass overrides in the examples are values of the `Defaults` record:
`ProviderDefaults` (default password `pwd`) and `CustomSourceDefaults` (default search
path `classpath:secure.properties`).

## Model

| member | source | states |
|---|---|---|
| EnvVarNames.ReplaceNonWord | microprofile-config-jasypt/src/main/java/com/github/chrisgleissner/config/microprofile/jasypt/JasyptConfigSource.java:31 | the result is as long as the input, keeps each character of `[A-Za-z0-9_]` and has `_` in place of every other |
| EnvVarNames.ToUpperCase | microprofile-config-jasypt/src/main/java/com/github/chrisgleissner/config/microprofile/jasypt/JasyptConfigSource.java:60 | the result is as long as the input and upper-cases each ASCII letter, leaving other characters alone |
| EnvVarNames.EnvVarName | microprofile-config-jasypt/src/main/java/com/github/chrisgleissner/config/microprofile/jasypt/JasyptConfigSource.java:59-61 | length is preserved; position i holds the upper-case form of a word character and `_` for any other; every output character is in `[A-Z0-9_]` |
| EnvVarNames.EnvVarNameFixedPoints | microprofile-config-jasypt/src/main/java/com/github/chrisgleissner/config/microprofile/jasypt/JasyptConfigSource.java:59-61 | a name is unchanged by the derivation exactly when it already consists of `[A-Z0-9_]` (both directions) |
| EnvVarNames.EnvVarNameIdempotent | microprofile-config-jasypt/src/main/java/com/github/chrisgleissner/config/microprofile/jasypt/JasyptConfigSource.java:59-61 | deriving twice equals deriving once |
| EnvVarNames.EnvVarNameConcat | microprofile-config-jasypt/src/main/java/com/github/chrisgleissner/config/microprofile/jasypt/JasyptConfigSource.java:59-61 | the derivation works character by character: the name of `a + b` is the name of `a` followed by the name of `b` |
| EnvVarNames.PasswordEnvVarName | microprofile-config-jasypt/src/main/java/com/github/chrisgleissner/config/microprofile/jasypt/JasyptConfigSource.java:28 | `jasypt.password` is read from `JASYPT_PASSWORD` |
| EnvVarNames.AlgorithmEnvVarName | microprofile-config-jasypt/src/main/java/com/github/chrisgleissner/config/microprofile/jasypt/JasyptConfigSource.java:29 | `jasypt.algorithm` is read from `JASYPT_ALGORITHM` |
| EnvVarNames.PropertiesEnvVarName | microprofile-config-jasypt/src/main/java/com/github/chrisgleissner/config/microprofile/jasypt/JasyptConfigSource.java:30 | `jasypt.properties` is read from `JASYPT_PROPERTIES` |
| Bootstrap.Property | microprofile-config-jasypt/src/main/java/com/github/chrisgleissner/config/microprofile/jasypt/JasyptConfigSource.java:53-57 | the environment value under the derived name if present; otherwise the system property of the dotted name if present; otherwise the default |
| Bootstrap.EnvVarWins | microprofile-config-jasypt/src/main/java/com/github/chrisgleissner/config/microprofile/jasypt/JasyptConfigSource.java:55-56 | when the environment variable is set, the result is its value whatever the system properties and the default are |
| Bootstrap.EncryptorSettingsOf | microprofile-config-jasypt/src/main/java/com/github/chrisgleissner/config/microprofile/jasypt/JasyptConfigSource.java:67-73 | the password is `JASYPT_PASSWORD` if set, else the system property `jasypt.password` if set, else the default password; the algorithm likewise from `JASYPT_ALGORITHM`, `jasypt.algorithm`, then `PBEWithHMACSHA512AndAES_256` |
| Bootstrap.SearchPathOf | microprofile-config-jasypt/src/main/java/com/github/chrisgleissner/config/microprofile/jasypt/JasyptConfigSource.java:88-90 | the search path is `JASYPT_PROPERTIES` if set, else the system property `jasypt.properties` if set, else the default search path |
| Bootstrap.UnsetParametersUseDefaults | microprofile-config-jasypt/src/main/java/com/github/chrisgleissner/config/microprofile/jasypt/JasyptConfigSource.java:67-90 | with none of the three parameters set, the encryptor gets the default password and `PBEWithHMACSHA512AndAES_256`, and the search path is the default one |
| Bootstrap.SystemPropertiesOverrideDefaults | microprofile-config-jasypt/src/test/java/com/github/chrisgleissner/config/microprofile/jasypt/JasyptConfigSourceTest.java:25-29 | the test fixture's system properties give password `pwd` and search path `src/test/resources/application.properties` |
| Bootstrap.DefaultSearchPathLocations | microprofile-config-jasypt/src/main/java/com/github/chrisgleissner/config/microprofile/jasypt/JasyptConfigSource.java:88-93 | the default search path splits into exactly `classpath:application.properties` then `config/application.properties` |
| SearchPath.Fields | microprofile-config-jasypt/src/main/java/com/github/chrisgleissner/config/microprofile/jasypt/JasyptConfigSource.java:93 | every field between commas, at least one, none containing a comma |
| SearchPath.DropTrailingEmpty | microprofile-config-jasypt/src/main/java/com/github/chrisgleissner/config/microprofile/jasypt/JasyptConfigSource.java:93 | the result is a prefix of the input that does not end in an empty string; only empty strings were dropped |
| SearchPath.Split | microprofile-config-jasypt/src/main/java/com/github/chrisgleissner/config/microprofile/jasypt/JasyptConfigSource.java:93 | no location produced by `split(",")` contains a comma |
| SearchPath.JoinFields | microprofile-config-jasypt/src/main/java/com/github/chrisgleissner/config/microprofile/jasypt/JasyptConfigSource.java:93 | joining the fields of a string with commas gives the string back |
| SearchPath.FieldsOfJoin | microprofile-config-jasypt/src/main/java/com/github/chrisgleissner/config/microprofile/jasypt/JasyptConfigSource.java:93 | splitting comma-free parts joined with commas gives the parts back, in order |
| SearchPath.SplitOfJoin | microprofile-config-jasypt/src/main/java/com/github/chrisgleissner/config/microprofile/jasypt/JasyptConfigSource.java:93 | `split` returns a list of comma-free locations unchanged and in order, unless the list's last location is empty |
| SearchPath.SplitEmpty | microprofile-config-jasypt/src/main/java/com/github/chrisgleissner/config/microprofile/jasypt/JasyptConfigSource.java:93 | `split` yields no location exactly when the input is non-empty and made of commas only (both directions) |
| SearchPath.ParseLocation | microprofile-config-jasypt/src/main/java/com/github/chrisgleissner/config/microprofile/jasypt/JasyptConfigSource.java:117-123 | a location is a class-path resource exactly when it starts with `classpath:`, the resource being the rest of the string; any other location is the filesystem path itself |
| SearchPath.LocationStringOfParse | microprofile-config-jasypt/src/main/java/com/github/chrisgleissner/config/microprofile/jasypt/JasyptConfigSource.java:117-123 | every location string denotes the location it is read as |
| SearchPath.ParseOfLocationString | microprofile-config-jasypt/src/main/java/com/github/chrisgleissner/config/microprofile/jasypt/JasyptConfigSource.java:117-123 | a location read back from its string is itself, except exactly a filesystem path starting with `classpath:` |
| Loader.Attempt | microprofile-config-jasypt/src/main/java/com/github/chrisgleissner/config/microprofile/jasypt/JasyptConfigSource.java:95-107 | the search from a position on fails naming every location of the list, and succeeds only with the properties of some location at or after that position that loads |
| Loader.TryInOrder | microprofile-config-jasypt/src/main/java/com/github/chrisgleissner/config/microprofile/jasypt/JasyptConfigSource.java:92-107 | a failed search names every location of the list; a successful one yields the properties of some location that loads |
| Loader.FirstLoadableWins | microprofile-config-jasypt/src/main/java/com/github/chrisgleissner/config/microprofile/jasypt/JasyptConfigSource.java:95-102 | when location k is the first that opens and parses, the result is its properties, whatever failed before it |
| Loader.NoneLoadable | microprofile-config-jasypt/src/main/java/com/github/chrisgleissner/config/microprofile/jasypt/JasyptConfigSource.java:103-107 | when no location loads, the search fails naming all locations, with the last location's exception as cause and no cause only for an empty list |
| Loader.SucceedsIffSomeLoads | microprofile-config-jasypt/src/main/java/com/github/chrisgleissner/config/microprofile/jasypt/JasyptConfigSource.java:95-107 | the search succeeds exactly when some location loads (both directions) |
| Loader.LaterLocationsIgnored | microprofile-config-jasypt/src/main/java/com/github/chrisgleissner/config/microprofile/jasypt/JasyptConfigSource.java:97-98 | locations after the first that loads are never attempted: what they would yield does not change the result |
| Loader.LoadProperties | microprofile-config-jasypt/src/main/java/com/github/chrisgleissner/config/microprofile/jasypt/JasyptConfigSource.java:92-108 | the loop with `lastException` and its early return computes the ordered search over the split search path |
| Loader.NoCauseOnlyForCommas | microprofile-config-jasypt/src/main/java/com/github/chrisgleissner/config/microprofile/jasypt/JasyptConfigSource.java:93-107 | a failed load has no cause exactly when the search path is non-empty and made of commas only (an empty path splits to one empty location, whose failure is the cause) |
| Loader.LoadOutcome | microprofile-config-jasypt/src/main/java/com/github/chrisgleissner/config/microprofile/jasypt/JasyptConfigSource.java:38-39 | the properties come from the search along the resolved search path; on total failure, strict mode fails with the search's error and lenient mode succeeds with no properties |
| JasyptSource.WrapRoundTrip | microprofile-config-jasypt/src/main/java/com/github/chrisgleissner/config/microprofile/jasypt/JasyptConfigSource.java:153 | `ENC(c)` carries the marker and unwraps to `c`, and every marked value is the wrapping of its inner text |
| JasyptSource.JasyptConfigSource.constructor | microprofile-config-jasypt/src/main/java/com/github/chrisgleissner/config/microprofile/jasypt/JasyptConfigSource.java:38-41 | the source holds the given properties and encryptor |
| JasyptSource.JasyptConfigSource.GetName | microprofile-config-jasypt/src/main/java/com/github/chrisgleissner/config/microprofile/jasypt/JasyptConfigSource.java:43-45 | the name is the constant `jasypt-config` |
| JasyptSource.JasyptConfigSource.GetOrdinal | microprofile-config-jasypt/src/main/java/com/github/chrisgleissner/config/microprofile/jasypt/JasyptConfigSource.java:47-51 | the ordinal is strictly between 250 (application.properties) and 300 (environment variables) |
| JasyptSource.JasyptConfigSource.EncryptableGet | microprofile-config-jasypt/src/main/java/com/github/chrisgleissner/config/microprofile/jasypt/JasyptConfigSource.java:135 | nothing exactly for a key that is not loaded; a plaintext value as stored; a marked value decrypted; it throws exactly when a marked value does not decrypt |
| JasyptSource.JasyptConfigSource.GetValue | microprofile-config-jasypt/src/main/java/com/github/chrisgleissner/config/microprofile/jasypt/JasyptConfigSource.java:133-144 | absent exactly when the key is not loaded; a plaintext value unchanged; a marked value decrypted when decryption succeeds and the stored value when it does not |
| JasyptSource.JasyptConfigSource.GetProperties | microprofile-config-jasypt/src/main/java/com/github/chrisgleissner/config/microprofile/jasypt/JasyptConfigSource.java:125-131 | the map has exactly the loaded keys and each entry is that key's `getValue` |
| JasyptSource.NameAndOrdinalFixed | microprofile-config-jasypt/src/main/java/com/github/chrisgleissner/config/microprofile/jasypt/JasyptConfigSource.java:43-51 | any two sources have the same name and ordinal (275), whatever they loaded |
| JasyptSource.ValueIsStoredOrDecrypted | microprofile-config-jasypt/src/main/java/com/github/chrisgleissner/config/microprofile/jasypt/JasyptConfigSource.java:133-144 | a lookup of a loaded key yields the stored value or the decryption of its marked ciphertext, never anything else |
| JasyptSource.WrappedCipherDecrypts | microprofile-config-jasypt/src/main/java/com/github/chrisgleissner/config/microprofile/jasypt/JasyptConfigSource.java:133-135 | a value stored as `ENC(c)` reads as the plaintext that `c` decrypts to |
| JasyptSource.WrongPasswordPassesThrough | microprofile-config-jasypt/src/test/java/com/github/chrisgleissner/config/microprofile/jasypt/JasyptConfigSourceTest.java:54-59 | when decryption is not possible the lookup yields the stored `ENC(...)` text, and no error |
| JasyptSource.FixtureValues | microprofile-config-jasypt/src/test/java/com/github/chrisgleissner/config/microprofile/jasypt/JasyptConfigSourceTest.java:31-45 | the file `a=1`, `b=ENC(x)` reads as `a` = `1` and `b` = `2` when the ciphertext `x` decrypts to `2`, and every key other than `a` and `b` as absent |
| JasyptSource.NewSource | microprofile-config-jasypt/src/main/java/com/github/chrisgleissner/config/microprofile/jasypt/JasyptConfigSource.java:38-41 | construction fails with the load failure exactly when loading fails; otherwise it gives a new source holding the loaded properties and the resolved password and algorithm |
| Cli.EncodeWith | microprofile-config-jasypt/src/main/java/com/github/chrisgleissner/config/microprofile/jasypt/JasyptConfigSource.java:146-155 | no argument gives the usage message with status 1; otherwise it fails when the source cannot be built, and else prints one line `arg -> ENC(cipher)` per argument, in argument order; when an encryption throws, the output is the lines of the arguments before it, and that argument's encryption is the one that threw |
| Cli.EncodedValueReadsBack | microprofile-config-jasypt/src/main/java/com/github/chrisgleissner/config/microprofile/jasypt/JasyptConfigSource.java:133-153 | the `ENC(cipher)` text printed for an argument, stored under a key, reads back through `getValue` as that argument whenever the source's decryption inverts the encryption |
| Cli.EncodeArguments | microprofile-config-jasypt/src/main/java/com/github/chrisgleissner/config/microprofile/jasypt/JasyptConfigSource.java:146-155 | the same for `main`, which always builds the source with the standard defaults |

## Left out

- Password-based encryption (`StandardPBEStringEncryptor`, the PBES2 scheme of section 6.2 of RFC 8018, `RandomIvGenerator`; lines 67-77). Encryption and decryption are function parameters. The encryptor gets the position of the argument, which stands for the random salt and IV, so equal arguments need not give equal ciphertexts. No equality between ciphertexts is stated. That decryption inverts encryption is not proved; it is a precondition of `Cli.EncodedValueReadsBack`, which relates the two.
- JasyptSource.JasyptConfigSource.GetValue: only the `EncryptionOperationNotPossibleException` of decryption is modelled (`None`), as the only exception the source catches. Other exceptions, such as an initialisation failure for an unknown algorithm name, propagate out of `getValue` in the source. The model does not represent them.
- The `ENC(...)` test belongs to jasypt's `EncryptableProperties` and `PropertyValueEncryptionUtils`, which are not part of this model. It is fixed here as "starts with `ENC(` and ends with `)`". Any surrounding whitespace that the library trims is not modelled.
- The property-file grammar of `Properties.load` and the reading of files and class-path resources (`FileInputStream`, `getResourceAsStream`) are folded into the `Opener`. That includes a missing class-path resource: `getResourceAsStream` gives `null`, loading it throws, and that counts as a failure. It also includes an exception raised while closing the stream.
- `System.getenv` and `System.getProperty` are the two maps of `Process`. Their values are taken to be constant during construction.
- EnvVarNames.EnvVarName: strings are sequences of Unicode code points, so "length" counts code points. A character outside the Basic Multilingual Plane is two UTF-16 units in Java but becomes one `_`. Upper-casing follows a locale in which `i` becomes `I`. In the Turkish locale, `toUpperCase` turns `i` into a dotted capital, which is not modelled.
- `System.exit`, `System.out` and `System.err` in `main` become the `CliOutcome` value. That is the printed lines, the usage message with status 1, the construction failure, or the lines printed before an encryption exception. The stack trace and exit status of an uncaught exception are not modelled.
- Logging at lines 96, 113 and 137-141 is observability only.
- Hosting in a configuration registry (merging sources by ordinal, `ConfigProvider`), the Quarkus extension and the example applications are not part of this model.
