/**
 * Human-readable project names (`demangle_project_name`). A project
 * directory's name is its absolute path with every `/` written as `-`; the
 * readable name is what follows the first "code", "projects", "writing" or
 * "scratch" component, or else the last component.
 */
module Names {
  import opened Wrappers
  import opened Text

  /** Directory names after which the project's own path begins. */
  const Markers: set<string> := {"code", "projects", "writing", "scratch"}

  /** `part.lower() in markers`. */
  predicate IsMarker(part: string) {
    Lower(part) in Markers
  }

  /**
   * The first index at or after `i` holding a marker that has at least one
   * part after it.
   */
  function FirstMarkerFrom(parts: seq<string>, i: nat): (r: Option<nat>)
    requires i <= |parts|
    ensures r.Some? ==> i <= r.value && r.value + 1 < |parts| && IsMarker(parts[r.value])
    ensures r.Some? ==> forall j :: i <= j < r.value ==> !IsMarker(parts[j])
    ensures r.None? ==> forall j :: i <= j && j + 1 < |parts| ==> !IsMarker(parts[j])
    decreases |parts| - i
  {
    if i == |parts| then None
    else if IsMarker(parts[i]) && i + 1 < |parts| then Some(i)
    else FirstMarkerFrom(parts, i + 1)
  }

  /** The name `demangle_project_name` gives an encoded directory name. */
  function HumanName(encodedName: string): string {
    var parts := Split(encodedName, '-');
    match FirstMarkerFrom(parts, 0)
    case Some(i) => Join(parts[i + 1..], "/")
    case None => if parts[|parts| - 1] != "" then parts[|parts| - 1] else encodedName
  }

  /** `demangle_project_name`: scans the dash-separated parts for the first marker. */
  method DemangleProjectName(encodedName: string) returns (human: string)
    ensures human == HumanName(encodedName)
  {
    var parts := Split(encodedName, '-');
    var i := 0;
    while i < |parts|
      invariant 0 <= i <= |parts|
      invariant FirstMarkerFrom(parts, 0) == FirstMarkerFrom(parts, i)
    {
      if IsMarker(parts[i]) {
        var remainder := parts[i + 1..];
        if remainder != [] {
          return Join(remainder, "/");
        }
      }
      i := i + 1;
    }
    // `parts` is never empty: `str.split` returns at least one part.
    human := parts[|parts| - 1];
    if human == "" {
      human := encodedName;
    }
  }

  /** After the first marker with something behind it, the rest is joined by `/`. */
  lemma {:induction false} HumanNameAfterMarker(encodedName: string, i: nat)
    requires var parts := Split(encodedName, '-');
             i + 1 < |parts| && IsMarker(parts[i])
             && forall j :: 0 <= j < i ==> !IsMarker(parts[j])
    ensures HumanName(encodedName) == Join(Split(encodedName, '-')[i + 1..], "/")
  {
  }

  /** Without a usable marker the name is the last part, or the whole name when that is empty. */
  lemma {:induction false} HumanNameFallback(encodedName: string)
    requires var parts := Split(encodedName, '-');
             forall j :: 0 <= j && j + 1 < |parts| ==> !IsMarker(parts[j])
    ensures var parts := Split(encodedName, '-');
            HumanName(encodedName) == (if parts[|parts| - 1] != "" then parts[|parts| - 1] else encodedName)
  {
  }

  /** Joining parts that lack a character, with a separator that lacks it, never introduces it. */
  lemma {:induction false} JoinAvoids(parts: seq<string>, sep: string, c: char)
    requires c !in sep && forall k :: 0 <= k < |parts| ==> c !in parts[k]
    ensures c !in Join(parts, sep)
    decreases |parts|
  {
    if |parts| > 1 {
      JoinAvoids(parts[1..], sep, c);
      assert parts[1..][0] == parts[1];
    }
  }

  /** The last part of a split is empty only when the string is empty or ends with the separator. */
  lemma {:induction false} SplitLastEmpty(s: string, sep: char)
    requires Split(s, sep)[|Split(s, sep)| - 1] == ""
    ensures s == [] || s[|s| - 1] == sep
    decreases |s|
  {
    if |s| > 0 {
      var rest := Split(s[1..], sep);
      if s[0] == sep {
        assert Split(s, sep) == [""] + rest;
        if |s| > 1 {
          SplitLastEmpty(s[1..], sep);
        }
      } else {
        var r := Split(s, sep);
        assert r == [[s[0]] + rest[0]] + rest[1..];
        if |rest| > 1 {
          assert r[|r| - 1] == rest[|rest| - 1];
          SplitLastEmpty(s[1..], sep);
        }
      }
    }
  }

  /** Only a name ending in a dash can keep a dash in its readable form. */
  lemma {:induction false} HumanNameNoDash(encodedName: string)
    requires encodedName == [] || encodedName[|encodedName| - 1] != '-'
    ensures '-' !in HumanName(encodedName)
  {
    var parts := Split(encodedName, '-');
    match FirstMarkerFrom(parts, 0)
    case Some(i) =>
      JoinAvoids(parts[i + 1..], "/", '-');
    case None =>
      if parts[|parts| - 1] == "" {
        SplitLastEmpty(encodedName, '-');
      }
  }
}
