/**
 * Bootstrap parameters: the password, the algorithm and the search path that
 * the configuration source needs before any configuration exists. Each is read
 * from an environment variable, then a system property, then a default.
 */
module Bootstrap {
  import opened Wrappers
  import opened EnvVarNames
  import opened SearchPath

  const JasyptPassword := "jasypt.password"
  const JasyptAlgorithm := "jasypt.algorithm"
  const JasyptProperties := "jasypt.properties"

  /** A placeholder that lets the source be built when no password is set; not for real secrets. */
  const DefaultPassword := "419419d231b"
  const DefaultAlgorithm := "PBEWithHMACSHA512AndAES_256"
  const DefaultSearchPath := "classpath:application.properties,config/application.properties"

  /** The environment variables and the system properties of the running process. */
  datatype Process = Process(env: map<string, string>, system: map<string, string>)

  /** What happens when no location of the search path can be loaded. */
  datatype FailurePolicy =
    | Strict   // construction fails, as the source does
    | Lenient  // the source starts with no properties

  /** The defaults a deployment may override. */
  datatype Defaults = Defaults(password: string, searchPath: string, onNoSource: FailurePolicy)

  /** The defaults of the configuration source itself. */
  const StandardDefaults := Defaults(DefaultPassword, DefaultSearchPath, Strict)
  /** The Quarkus example's provider, which overrides the default password. */
  const ProviderDefaults := StandardDefaults.(password := "pwd")
  /** The override example's subclass, which reads `classpath:secure.properties` by default. */
  const CustomSourceDefaults := StandardDefaults.(searchPath := "classpath:secure.properties")

  /** `property(name, default)`: environment variable, else system property, else default. */
  function Property(p: Process, name: string, default: string): (r: string)
    ensures EnvVarName(name) in p.env ==> r == p.env[EnvVarName(name)]
    ensures EnvVarName(name) !in p.env && name in p.system ==> r == p.system[name]
    ensures EnvVarName(name) !in p.env && name !in p.system ==> r == default
  {
    Lookup(p.env, EnvVarName(name)).GetOr(Lookup(p.system, name).GetOr(default))
  }

  /** A set environment variable wins over every system property and every default. */
  lemma EnvVarWins(p: Process, name: string, system: map<string, string>, default: string)
    requires EnvVarName(name) in p.env
    ensures Property(p.(system := system), name, default) == Property(p, name, default)
    ensures Property(p, name, default) == p.env[EnvVarName(name)]
  {
  }

  /** The settings the string encryptor is built with (`createStringEncryptor`). */
  datatype EncryptorSettings = EncryptorSettings(password: string, algorithm: string)

  /**
   * The password comes from `JASYPT_PASSWORD`, else `jasypt.password`, else the default;
   * the algorithm from `JASYPT_ALGORITHM`, else `jasypt.algorithm`, else `PBEWithHMACSHA512AndAES_256`.
   */
  function EncryptorSettingsOf(d: Defaults, p: Process): (r: EncryptorSettings)
    ensures "JASYPT_PASSWORD" in p.env ==> r.password == p.env["JASYPT_PASSWORD"]
    ensures "JASYPT_PASSWORD" !in p.env && JasyptPassword in p.system ==> r.password == p.system[JasyptPassword]
    ensures "JASYPT_PASSWORD" !in p.env && JasyptPassword !in p.system ==> r.password == d.password
    ensures "JASYPT_ALGORITHM" in p.env ==> r.algorithm == p.env["JASYPT_ALGORITHM"]
    ensures "JASYPT_ALGORITHM" !in p.env && JasyptAlgorithm in p.system ==> r.algorithm == p.system[JasyptAlgorithm]
    ensures "JASYPT_ALGORITHM" !in p.env && JasyptAlgorithm !in p.system ==> r.algorithm == DefaultAlgorithm
  {
    PasswordEnvVarName();
    AlgorithmEnvVarName();
    EncryptorSettings(Property(p, JasyptPassword, d.password), Property(p, JasyptAlgorithm, DefaultAlgorithm))
  }

  /** `getCommaSeparatedPropertyFilenames`: `JASYPT_PROPERTIES`, else `jasypt.properties`, else the default. */
  function SearchPathOf(d: Defaults, p: Process): (r: string)
    ensures "JASYPT_PROPERTIES" in p.env ==> r == p.env["JASYPT_PROPERTIES"]
    ensures "JASYPT_PROPERTIES" !in p.env && JasyptProperties in p.system ==> r == p.system[JasyptProperties]
    ensures "JASYPT_PROPERTIES" !in p.env && JasyptProperties !in p.system ==> r == d.searchPath
  {
    PropertiesEnvVarName();
    Property(p, JasyptProperties, d.searchPath)
  }

  /** With no parameter set, the encryptor and the search path use the defaults. */
  lemma UnsetParametersUseDefaults(d: Defaults, p: Process)
    requires "JASYPT_PASSWORD" !in p.env && JasyptPassword !in p.system
    requires "JASYPT_ALGORITHM" !in p.env && JasyptAlgorithm !in p.system
    requires "JASYPT_PROPERTIES" !in p.env && JasyptProperties !in p.system
    ensures EncryptorSettingsOf(d, p) == EncryptorSettings(d.password, DefaultAlgorithm)
    ensures SearchPathOf(d, p) == d.searchPath
  {
    PasswordEnvVarName();
    AlgorithmEnvVarName();
    PropertiesEnvVarName();
  }

  /** System properties set by the test fixture, with no environment variable set. */
  lemma SystemPropertiesOverrideDefaults(d: Defaults, p: Process)
    requires "JASYPT_PASSWORD" !in p.env && "JASYPT_PROPERTIES" !in p.env
    requires JasyptPassword in p.system && p.system[JasyptPassword] == "pwd"
    requires JasyptProperties in p.system && p.system[JasyptProperties] == "src/test/resources/application.properties"
    ensures EncryptorSettingsOf(d, p).password == "pwd"
    ensures SearchPathOf(d, p) == "src/test/resources/application.properties"
  {
    PasswordEnvVarName();
    PropertiesEnvVarName();
  }

  /** The default search path is the bundled `application.properties`, then `config/application.properties`. */
  lemma DefaultSearchPathLocations()
    ensures Split(DefaultSearchPath) == ["classpath:application.properties", "config/application.properties"]
  {
    var parts := ["classpath:application.properties", "config/application.properties"];
    assert DefaultSearchPath == parts[0] + "," + parts[1];
    assert Join(parts) == DefaultSearchPath;
    SplitOfJoin(parts);
  }
}
