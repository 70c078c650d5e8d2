/**
 * Derivation of an environment-variable name from a dotted property name:
 * every character outside `[A-Za-z0-9_]` becomes `_`, then the whole string
 * is upper-cased (`JasyptConfigSource.envVarName`).
 *
 * Strings are sequences of Unicode code points.
 */
module EnvVarNames {

  /** A character that the pattern `[^a-zA-Z0-9_]` does not match. */
  predicate IsWordChar(c: char) {
    ('a' <= c <= 'z') || ('A' <= c <= 'Z') || ('0' <= c <= '9') || c == '_'
  }

  /** A character that may appear in a derived environment-variable name. */
  predicate IsEnvVarChar(c: char) {
    ('A' <= c <= 'Z') || ('0' <= c <= '9') || c == '_'
  }

  /** Upper-casing of one character; only ASCII letters change. */
  function UpperAscii(c: char): char {
    if 'a' <= c <= 'z' then (c as int - 32) as char else c
  }

  /** What one character of a property name becomes in the environment-variable name. */
  function EnvVarChar(c: char): char {
    if IsWordChar(c) then UpperAscii(c) else '_'
  }

  /** `PATTERN.matcher(s).replaceAll("_")`. */
  function ReplaceNonWord(s: string): (r: string)
    ensures |r| == |s|
    ensures forall i :: 0 <= i < |s| ==> r[i] == (if IsWordChar(s[i]) then s[i] else '_')
  {
    seq(|s|, i requires 0 <= i < |s| => if IsWordChar(s[i]) then s[i] else '_')
  }

  /** `String.toUpperCase` on a string of word characters, the only strings `envVarName` upper-cases. */
  function ToUpperCase(s: string): (r: string)
    requires forall i :: 0 <= i < |s| ==> IsWordChar(s[i])
    ensures |r| == |s|
    ensures forall i :: 0 <= i < |s| ==> r[i] == UpperAscii(s[i])
  {
    seq(|s|, i requires 0 <= i < |s| => UpperAscii(s[i]))
  }

  /** The environment variable consulted for the property `name`. */
  function EnvVarName(name: string): (r: string)
    ensures |r| == |name|
    ensures forall i :: 0 <= i < |name| ==> r[i] == EnvVarChar(name[i])
    ensures forall i :: 0 <= i < |r| ==> IsEnvVarChar(r[i])
  {
    ToUpperCase(ReplaceNonWord(name))
  }

  /** A name is left as it is exactly when it already is an environment-variable name. */
  lemma EnvVarNameFixedPoints(name: string)
    ensures EnvVarName(name) == name <==> forall i :: 0 <= i < |name| ==> IsEnvVarChar(name[i])
  {
  }

  /** Deriving twice is deriving once. */
  lemma EnvVarNameIdempotent(name: string)
    ensures EnvVarName(EnvVarName(name)) == EnvVarName(name)
  {
    EnvVarNameFixedPoints(EnvVarName(name));
  }

  /** Derivation works piecewise: the name of a concatenation is the concatenation of the names. */
  lemma EnvVarNameConcat(a: string, b: string)
    ensures EnvVarName(a + b) == EnvVarName(a) + EnvVarName(b)
  {
  }

  /** The environment variable `JASYPT_PASSWORD` overrides `jasypt.password`. */
  lemma PasswordEnvVarName()
    ensures EnvVarName("jasypt.password") == "JASYPT_PASSWORD"
  {
  }

  /** The environment variable `JASYPT_ALGORITHM` overrides `jasypt.algorithm`. */
  lemma AlgorithmEnvVarName()
    ensures EnvVarName("jasypt.algorithm") == "JASYPT_ALGORITHM"
  {
  }

  /** The environment variable `JASYPT_PROPERTIES` overrides `jasypt.properties`. */
  lemma PropertiesEnvVarName()
    ensures EnvVarName("jasypt.properties") == "JASYPT_PROPERTIES"
  {
  }
}
