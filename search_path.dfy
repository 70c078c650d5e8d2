/**
 * The property-file search path: the comma-separated list of locations
 * (`String.split(",")` as Java defines it) and the `classpath:` prefix
 * that tells a bundled resource from a filesystem path.
 */
module SearchPath {

  /** Every field between commas, trailing empty ones included. */
  function Fields(s: string): (r: seq<string>)
    ensures |r| >= 1
    ensures forall k :: 0 <= k < |r| ==> ',' !in r[k]
    decreases |s|
  {
    if s == [] then [""]
    else if s[0] == ',' then [""] + Fields(s[1..])
    else var rest := Fields(s[1..]); [[s[0]] + rest[0]] + rest[1..]
  }

  /** The fields joined back with commas (the inverse of `Fields`). */
  function Join(parts: seq<string>): string
    requires |parts| >= 1
    decreases |parts|
  {
    if |parts| == 1 then parts[0] else parts[0] + "," + Join(parts[1..])
  }

  /** Drops the empty strings at the end, as `String.split` does with limit 0. */
  function DropTrailingEmpty(parts: seq<string>): (r: seq<string>)
    ensures |r| <= |parts| && r == parts[..|r|]
    ensures r == [] || r[|r| - 1] != ""
    ensures forall k :: |r| <= k < |parts| ==> parts[k] == ""
  {
    if parts == [] || parts[|parts| - 1] != "" then parts
    else DropTrailingEmpty(parts[..|parts| - 1])
  }

  /**
   * `s.split(",")`: an input without a comma comes back as the only element
   * (so `""` gives `[""]`); otherwise the fields, minus trailing empty ones.
   */
  function Split(s: string): (r: seq<string>)
    ensures forall k :: 0 <= k < |r| ==> ',' !in r[k]
  {
    if ',' !in s then [s]
    else
      var r := DropTrailingEmpty(Fields(s));
      assert forall k :: 0 <= k < |r| ==> r[k] == Fields(s)[k];
      r
  }

  /** Splitting then joining gives back the input, for a comma-free field list. */
  lemma {:induction false} JoinFields(s: string)
    ensures Join(Fields(s)) == s
    decreases |s|
  {
    if s == [] {
    } else if s[0] == ',' {
      JoinFields(s[1..]);
      assert Fields(s)[1..] == Fields(s[1..]);
      assert s == [','] + s[1..];
    } else {
      var rest := Fields(s[1..]);
      JoinFields(s[1..]);
      if |rest| == 1 {
        assert s == [s[0]] + s[1..];
      } else {
        assert Fields(s)[1..] == rest[1..];
        assert Join(rest) == rest[0] + "," + Join(rest[1..]);
        assert s == [s[0]] + s[1..];
      }
    }
  }

  /** A comma-free string is one field. */
  lemma {:induction false} FieldsOfCommaFree(s: string)
    requires ',' !in s
    ensures Fields(s) == [s]
    decreases |s|
  {
    if s != [] {
      assert ',' !in s[1..] by {
        forall c | c in s[1..] ensures c in s { }
      }
      FieldsOfCommaFree(s[1..]);
      assert s == [s[0]] + s[1..];
    }
  }

  /** The first field runs up to the first comma. */
  lemma {:induction false} FieldsOfConcat(x: string, y: string)
    requires ',' !in x
    ensures Fields(x + "," + y) == [x] + Fields(y)
    decreases |x|
  {
    if x == [] {
      assert x + "," + y == [','] + y;
      assert (x + "," + y)[1..] == y;
    } else {
      assert ',' !in x[1..] by {
        forall c | c in x[1..] ensures c in x { }
      }
      FieldsOfConcat(x[1..], y);
      assert (x + "," + y)[1..] == x[1..] + "," + y;
      assert (x + "," + y)[0] == x[0];
      assert [x[0]] + x[1..] == x;
    }
  }

  /** Joining comma-free fields and splitting again gives the fields back. */
  lemma {:induction false} FieldsOfJoin(parts: seq<string>)
    requires |parts| >= 1
    requires forall k :: 0 <= k < |parts| ==> ',' !in parts[k]
    ensures Fields(Join(parts)) == parts
    decreases |parts|
  {
    if |parts| == 1 {
      FieldsOfCommaFree(parts[0]);
    } else {
      FieldsOfJoin(parts[1..]);
      FieldsOfConcat(parts[0], Join(parts[1..]));
      assert parts == [parts[0]] + parts[1..];
    }
  }

  /**
   * A list of comma-free locations survives joining and `split`, unless it ends
   * with an empty location (which `split` drops).
   */
  lemma SplitOfJoin(parts: seq<string>)
    requires |parts| >= 1
    requires forall k :: 0 <= k < |parts| ==> ',' !in parts[k]
    requires |parts| == 1 || parts[|parts| - 1] != ""
    ensures Split(Join(parts)) == parts
  {
    FieldsOfJoin(parts);
    if |parts| == 1 {
      FieldsOfCommaFree(parts[0]);
    }
  }

  /** Every field is empty exactly when the input is made of commas only. */
  lemma {:induction false} FieldsAllEmpty(s: string)
    ensures (forall k :: 0 <= k < |Fields(s)| ==> Fields(s)[k] == "")
        <==> (forall k :: 0 <= k < |s| ==> s[k] == ',')
    decreases |s|
  {
    if s != [] {
      FieldsAllEmpty(s[1..]);
      if s[0] == ',' {
        var f := Fields(s);
        assert f[1..] == Fields(s[1..]);
        assert forall k :: 1 <= k < |f| ==> f[k] == Fields(s[1..])[k - 1];
        assert forall k :: 1 <= k < |s| ==> s[k] == s[1..][k - 1];
      } else {
        assert Fields(s)[0] != "";
      }
    }
  }

  /**
   * `split` yields no location at all exactly when the input is non-empty and
   * made of commas only.
   */
  lemma SplitEmpty(s: string)
    ensures Split(s) == [] <==> (s != [] && forall k :: 0 <= k < |s| ==> s[k] == ',')
  {
    FieldsAllEmpty(s);
    if s != [] && forall k :: 0 <= k < |s| ==> s[k] == ',' {
      assert s[0] == ',';
    }
  }

  /** The marker of a location resolved against the bundled resources. */
  const ClasspathPrefix := "classpath:"

  predicate StartsWith(s: string, prefix: string) {
    |prefix| <= |s| && s[..|prefix|] == prefix
  }

  /** A candidate location of the property file. */
  datatype Location =
    | Classpath(resource: string)  // a resource of the context class loader
    | File(path: string)           // a path in the filesystem

  /** How `createInputStream` reads a location string. */
  function ParseLocation(s: string): (l: Location)
    ensures l.Classpath? <==> StartsWith(s, ClasspathPrefix)
    ensures l.Classpath? ==> s == ClasspathPrefix + l.resource
    ensures l.File? ==> l.path == s
  {
    if StartsWith(s, ClasspathPrefix) then Classpath(s[|ClasspathPrefix|..]) else File(s)
  }

  /** The location string that denotes `l`. */
  function LocationString(l: Location): string {
    match l
    case Classpath(resource) => ClasspathPrefix + resource
    case File(path) => path
  }

  /** Every location string denotes what it is read as. */
  lemma LocationStringOfParse(s: string)
    ensures LocationString(ParseLocation(s)) == s
  {
  }

  /**
   * Reading a location string back gives the location, except for a filesystem
   * path that itself starts with `classpath:`, which no string can denote.
   */
  lemma ParseOfLocationString(l: Location)
    ensures ParseLocation(LocationString(l)) == l <==> !(l.File? && StartsWith(l.path, ClasspathPrefix))
  {
  }
}
