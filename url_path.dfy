/**
 * URL path joining used to derive the application base path.
 *
 * `joinUrlPath` drops empty segments, strips the slashes at the edges of each
 * remaining segment, joins them with "/", then splits the result on "/",
 * drops the empty parts and puts the rest back together behind one leading
 * "/". Both the space and the admin application carry an identical copy; one
 * definition models both.
 */
module UrlPath {
  import opened Common

  // ---------------------------------------------------------------------
  // Strings cut at "/"
  // ---------------------------------------------------------------------

  /** `String.prototype.split("/")`: the pieces between slashes, empty ones included. */
  function Split(s: string): (parts: seq<string>)
    ensures |parts| >= 1
    ensures forall i | 0 <= i < |parts| :: '/' !in parts[i]
  {
    if s == [] then [""]
    else
      var rest := Split(s[1..]);
      if s[0] == '/' then [""] + rest
      else [[s[0]] + rest[0]] + rest[1..]
  }

  /** `Array.prototype.join("/")`. */
  function JoinSlash(parts: seq<string>): string
  {
    if parts == [] then ""
    else if |parts| == 1 then parts[0]
    else parts[0] + "/" + JoinSlash(parts[1..])
  }

  /** `filter((part) => part !== "")`. */
  function NonEmpty(xs: seq<string>): (r: seq<string>)
    ensures forall x :: x in r <==> x in xs && x != ""
    ensures |r| <= |xs|
  {
    if xs == [] then []
    else (if xs[0] == "" then [] else [xs[0]]) + NonEmpty(xs[1..])
  }

  /** The non-empty "/"-separated parts of one string. */
  function Parts(s: string): seq<string>
  {
    NonEmpty(Split(s))
  }

  /** The non-empty "/"-separated parts of every segment, in order. */
  function AllParts(segments: seq<string>): (r: seq<string>)
    ensures forall i | 0 <= i < |r| :: r[i] != "" && '/' !in r[i]
  {
    if segments == [] then []
    else
      var r := Parts(segments[0]) + AllParts(segments[1..]);
      assert forall i | 0 <= i < |r| :: r[i] in Parts(segments[0]) || r[i] in AllParts(segments[1..]);
      r
  }

  /** Every piece of every segment, empty ones included. */
  function SplitAll(segments: seq<string>): seq<string>
  {
    if segments == [] then [] else Split(segments[0]) + SplitAll(segments[1..])
  }

  /** No two slashes in a row. */
  predicate NoDoubleSlash(s: string)
  {
    forall i | 0 <= i < |s| - 1 :: !(s[i] == '/' && s[i + 1] == '/')
  }

  /** The shape every non-empty result has: rooted, no "//", no trailing "/" unless it is the root. */
  predicate WellFormedPath(u: string)
  {
    && |u| >= 1
    && u[0] == '/'
    && NoDoubleSlash(u)
    && (u[|u| - 1] == '/' ==> u == "/")
  }

  // ---------------------------------------------------------------------
  // Slash stripping
  // ---------------------------------------------------------------------

  /** The segment with every leading slash removed. */
  function StripLeading(s: string): (r: string)
    ensures r == [] || r[0] != '/'
    ensures |r| <= |s| && s[|s| - |r|..] == r
    ensures forall i | 0 <= i < |s| - |r| :: s[i] == '/'
  {
    if s != [] && s[0] == '/' then StripLeading(s[1..]) else s
  }

  /** The segment with every trailing slash removed. */
  function StripTrailing(s: string): (r: string)
    ensures r == [] || r[|r| - 1] != '/'
    ensures |r| <= |s| && s[..|r|] == r
    ensures forall i | |r| <= i < |s| :: s[i] == '/'
  {
    if s != [] && s[|s| - 1] == '/' then StripTrailing(s[..|s| - 1]) else s
  }

  /** The first `while` loop of the segment mapper. */
  method TrimLeadingSlashes(segment: string) returns (processed: string)
    ensures processed == StripLeading(segment)
  {
    processed := segment;
    while |processed| > 0 && processed[0] == '/'
      invariant StripLeading(processed) == StripLeading(segment)
      decreases |processed|
    {
      processed := processed[1..];
    }
  }

  /** The second `while` loop of the segment mapper. */
  method TrimTrailingSlashes(segment: string) returns (processed: string)
    ensures processed == StripTrailing(segment)
  {
    processed := segment;
    while |processed| > 0 && processed[|processed| - 1] == '/'
      invariant StripTrailing(processed) == StripTrailing(segment)
      decreases |processed|
    {
      processed := processed[..|processed| - 1];
    }
  }

  /**
   * The segment mapper: leading slashes always go, trailing ones only when
   * the segment is not the last. Either way the parts are untouched.
   */
  method ProcessSegment(segment: string, notLast: bool) returns (processed: string)
    ensures Parts(processed) == Parts(segment)
    ensures processed == [] || processed[0] != '/'
    ensures notLast ==> processed == [] || processed[|processed| - 1] != '/'
  {
    processed := TrimLeadingSlashes(segment);
    StripLeadingKeepsParts(segment);
    if notLast {
      var before := processed;
      processed := TrimTrailingSlashes(processed);
      StripTrailingKeepsParts(before);
    }
  }

  // ---------------------------------------------------------------------
  // Lemmas about splitting and joining
  // ---------------------------------------------------------------------

  /** Splitting at a slash splits the two sides independently. */
  lemma {:induction false} SplitAppend(a: string, b: string)
    ensures Split(a + "/" + b) == Split(a) + Split(b)
  {
    var s := a + "/" + b;
    if a == [] {
      assert s[1..] == b;
    } else {
      assert s[1..] == a[1..] + "/" + b;
      SplitAppend(a[1..], b);
    }
  }

  /** Dropping empty parts distributes over concatenation. */
  lemma {:induction false} NonEmptyAppend(x: seq<string>, y: seq<string>)
    ensures NonEmpty(x + y) == NonEmpty(x) + NonEmpty(y)
  {
    if x == [] {
      assert x + y == y;
    } else {
      assert (x + y)[0] == x[0];
      assert (x + y)[1..] == x[1..] + y;
      NonEmptyAppend(x[1..], y);
      var head := if x[0] == "" then [] else [x[0]];
      assert NonEmpty(x + y) == head + (NonEmpty(x[1..]) + NonEmpty(y));
    }
  }

  /** Split undoes join. */
  lemma {:induction false} SplitJoinSlash(segments: seq<string>)
    requires segments != []
    ensures Split(JoinSlash(segments)) == SplitAll(segments)
  {
    if |segments| > 1 {
      SplitJoinSlash(segments[1..]);
      SplitAppend(segments[0], JoinSlash(segments[1..]));
    }
  }

  /** Join undoes split: `s.split("/").join("/") == s`. */
  lemma {:induction false} JoinSlashSplit(s: string)
    ensures JoinSlash(Split(s)) == s
  {
    if s != [] {
      var rest := Split(s[1..]);
      JoinSlashSplit(s[1..]);
      if s[0] == '/' {
        assert s == "/" + s[1..];
      } else {
        var parts := [[s[0]] + rest[0]] + rest[1..];
        assert parts[1..] == rest[1..];
        if |rest| > 1 {
          assert JoinSlash(rest) == rest[0] + "/" + JoinSlash(rest[1..]);
        }
        assert s == [s[0]] + s[1..];
      }
    }
  }

  /** The parts of all segments are the parts of their pieces. */
  lemma {:induction false} SplitAllParts(segments: seq<string>)
    ensures NonEmpty(SplitAll(segments)) == AllParts(segments)
  {
    if segments != [] {
      SplitAllParts(segments[1..]);
      NonEmptyAppend(Split(segments[0]), SplitAll(segments[1..]));
    }
  }

  /** Appending a segment appends its parts. */
  lemma {:induction false} AllPartsSnoc(segments: seq<string>, s: string)
    ensures AllParts(segments + [s]) == AllParts(segments) + Parts(s)
  {
    if segments == [] {
      assert Parts(s) + [] == Parts(s);
    } else {
      assert (segments + [s])[1..] == segments[1..] + [s];
      AllPartsSnoc(segments[1..], s);
    }
  }

  /** Empty segments contribute nothing, so dropping them first changes no part. */
  lemma {:induction false} AllPartsSkipsEmpty(segments: seq<string>)
    ensures AllParts(NonEmpty(segments)) == AllParts(segments)
  {
    if segments != [] {
      AllPartsSkipsEmpty(segments[1..]);
      if segments[0] == "" {
        assert NonEmpty([""]) == [];
        assert Parts(segments[0]) == [];
        assert NonEmpty(segments) == [] + NonEmpty(segments[1..]) == NonEmpty(segments[1..]);
        assert AllParts(segments) == [] + AllParts(segments[1..]) == AllParts(segments[1..]);
      } else {
        var kept := [segments[0]] + NonEmpty(segments[1..]);
        assert kept[0] == segments[0] && kept[1..] == NonEmpty(segments[1..]);
      }
    }
  }

  /** Leading slashes only add empty pieces. */
  lemma {:induction false} StripLeadingKeepsParts(s: string)
    ensures Parts(StripLeading(s)) == Parts(s)
  {
    if s != [] && s[0] == '/' {
      StripLeadingKeepsParts(s[1..]);
    }
  }

  /** Trailing slashes only add empty pieces. */
  lemma {:induction false} StripTrailingKeepsParts(s: string)
    ensures Parts(StripTrailing(s)) == Parts(s)
  {
    if s != [] && s[|s| - 1] == '/' {
      var t := s[..|s| - 1];
      assert s == t + "/" + "";
      SplitAppend(t, "");
      NonEmptyAppend(Split(t), [""]);
      StripTrailingKeepsParts(t);
    }
  }

  /** A segment made only of slashes has no parts; for example "/" has none. */
  lemma {:induction false} SlashesOnlyHaveNoParts(s: string)
    requires forall i | 0 <= i < |s| :: s[i] == '/'
    ensures Parts(s) == []
  {
    if s != [] {
      SlashesOnlyHaveNoParts(s[1..]);
    }
  }

  /** Joining non-empty, slash-free parts gives a string with slashes only between parts. */
  lemma {:induction false} JoinSlashShape(parts: seq<string>)
    requires forall i | 0 <= i < |parts| :: parts[i] != "" && '/' !in parts[i]
    ensures var j := JoinSlash(parts);
      && (j == "" <==> parts == [])
      && (j != "" ==> j[0] != '/' && j[|j| - 1] != '/')
      && NoDoubleSlash(j)
  {
    if |parts| > 1 {
      var p, r := parts[0], JoinSlash(parts[1..]);
      JoinSlashShape(parts[1..]);
      var j := p + "/" + r;
      forall i | 0 <= i < |j| - 1
        ensures !(j[i] == '/' && j[i + 1] == '/')
      {
        if i < |p| {
          assert j[i] == p[i];
        } else if i > |p| {
          assert j[i] == r[i - |p| - 1] && j[i + 1] == r[i - |p|];
        }
      }
    } else if |parts| == 1 {
      assert forall i | 0 <= i < |parts[0]| :: parts[0][i] != '/';
    }
  }

  /** "/" followed by such a join is a well-formed path. */
  lemma RootedJoinIsWellFormed(parts: seq<string>)
    requires forall i | 0 <= i < |parts| :: parts[i] != "" && '/' !in parts[i]
    ensures WellFormedPath("/" + JoinSlash(parts))
  {
    var j := JoinSlash(parts);
    JoinSlashShape(parts);
    var u := "/" + j;
    forall i | 0 <= i < |u| - 1
      ensures !(u[i] == '/' && u[i + 1] == '/')
    {
      if i > 0 {
        assert u[i] == j[i - 1] && u[i + 1] == j[i];
      }
    }
  }

  // ---------------------------------------------------------------------
  // joinUrlPath and basePath
  // ---------------------------------------------------------------------

  /** `joinUrlPath(...segments)`. */
  method JoinUrlPath(segments: seq<string>) returns (url: string)
    ensures segments == [] ==> url == ""
    ensures (forall i | 0 <= i < |segments| :: segments[i] == "") ==> url == ""
    ensures (exists i | 0 <= i < |segments| :: segments[i] != "") ==> url == "/" + JoinSlash(AllParts(segments))
    ensures url != "" ==> WellFormedPath(url)
  {
    if |segments| == 0 {
      return "";
    }
    var validSegments := NonEmpty(segments);
    if |validSegments| == 0 {
      assert forall i | 0 <= i < |segments| :: segments[i] == "" by {
        forall i | 0 <= i < |segments| ensures segments[i] == "" {
          assert segments[i] in segments;
        }
      }
      return "";
    }
    var processedSegments: seq<string> := [];
    for index := 0 to |validSegments|
      invariant |processedSegments| == index
      invariant AllParts(processedSegments) == AllParts(validSegments[..index])
    {
      var processed := ProcessSegment(validSegments[index], index < |validSegments| - 1);
      AllPartsSnoc(processedSegments, processed);
      AllPartsSnoc(validSegments[..index], validSegments[index]);
      assert validSegments[..index + 1] == validSegments[..index] + [validSegments[index]];
      processedSegments := processedSegments + [processed];
    }
    var joined := JoinSlash(processedSegments);
    SplitJoinSlash(processedSegments);
    SplitAllParts(processedSegments);
    assert validSegments[..|validSegments|] == validSegments;
    AllPartsSkipsEmpty(segments);
    url := "/" + JoinSlash(NonEmpty(Split(joined)));
    RootedJoinIsWellFormed(AllParts(segments));
    assert validSegments[0] in segments;
  }

  /** `joinUrlPath("/")` is the root. */
  lemma RootSegmentGivesRoot()
    ensures "/" + JoinSlash(AllParts(["/"])) == "/"
  {
    SlashesOnlyHaveNoParts("/");
  }

  /**
   * `basePath = joinUrlPath(env ?? "", "/") ?? "/"`: the configured base path
   * (`VITE_SPACE_BASE_PATH` or `VITE_ADMIN_BASE_PATH`, absent or set).
   */
  method BasePath(env: Option<string>) returns (base: string)
    ensures WellFormedPath(base)
    ensures base == "/" + JoinSlash(Parts(if env.Some? then env.value else ""))
  {
    var configured := if env.Some? then env.value else "";
    var segments := [configured, "/"];
    base := JoinUrlPath(segments);
    assert segments[1] != "";
    SlashesOnlyHaveNoParts("/");
    assert segments[1..] == ["/"] && ["/"][1..] == [];
    assert AllParts(segments) == Parts(configured) + (Parts("/") + []);
    assert Parts("/") + [] == [];
    assert AllParts(segments) == Parts(configured);
  }
}
