/**
 * The metadata extractor: the header (`#EXTM3U`) and separator (`#---`)
 * lines of the target playlist, in order and verbatim.
 */
module Metadata {
  import opened Lines

  /** The header and separator lines of `lines`, in their original order. */
  function MetadataLines(lines: seq<string>): (r: seq<string>)
    ensures forall l :: l in r ==> IsMetadata(l) && l in lines
  {
    if lines == [] then []
    else
      var last := lines[|lines| - 1];
      MetadataLines(lines[..|lines| - 1]) + (if IsMetadata(last) then [last] else [])
  }

  /** The positions of the header and separator lines, in increasing order. */
  function MetadataPositions(lines: seq<string>): seq<nat>
  {
    if lines == [] then []
    else
      var n := |lines| - 1;
      MetadataPositions(lines[..n]) + (if IsMetadata(lines[n]) then [n] else [])
  }

  /** The positions listed are exactly those of the metadata lines, each once and in order. */
  lemma {:induction false} MetadataPositionsSpec(lines: seq<string>)
    ensures forall i :: i in MetadataPositions(lines) <==> 0 <= i < |lines| && IsMetadata(lines[i])
    ensures forall a, b :: 0 <= a < b < |MetadataPositions(lines)| ==>
              MetadataPositions(lines)[a] < MetadataPositions(lines)[b]
  {
    if lines != [] {
      var n := |lines| - 1;
      var p := MetadataPositions(lines[..n]);
      MetadataPositionsSpec(lines[..n]);
      assert forall i :: 0 <= i < n ==> lines[..n][i] == lines[i];
      forall a | 0 <= a < |p| ensures p[a] < n {
        assert p[a] in p;
      }
    }
  }

  /**
   * The extracted lines are the input lines at the metadata positions: the
   * subsequence of `lines` that start with `#EXTM3U` or `#---`, nothing else.
   */
  lemma {:induction false} MetadataIsSubsequence(lines: seq<string>)
    ensures |MetadataLines(lines)| == |MetadataPositions(lines)|
    ensures forall j :: 0 <= j < |MetadataLines(lines)| ==>
              MetadataPositions(lines)[j] < |lines| && MetadataLines(lines)[j] == lines[MetadataPositions(lines)[j]]
  {
    if lines != [] {
      var n := |lines| - 1;
      MetadataIsSubsequence(lines[..n]);
      MetadataPositionsSpec(lines[..n]);
      forall j | 0 <= j < |MetadataPositions(lines[..n])|
        ensures MetadataPositions(lines[..n])[j] < n
      {
        assert MetadataPositions(lines[..n])[j] in MetadataPositions(lines[..n]);
      }
    }
  }

  lemma {:induction false} MetadataAppend(a: seq<string>, b: seq<string>)
    ensures MetadataLines(a + b) == MetadataLines(a) + MetadataLines(b)
  {
    if b == [] {
      assert a + b == a;
    } else {
      var n := |b| - 1;
      MetadataAppend(a, b[..n]);
      assert (a + b)[..|a + b| - 1] == a + b[..n];
      assert (a + b)[|a + b| - 1] == b[n];
    }
  }

  lemma {:induction false} MetadataOfMetadata(lines: seq<string>)
    requires forall l :: l in lines ==> IsMetadata(l)
    ensures MetadataLines(lines) == lines
  {
    if lines != [] {
      var n := |lines| - 1;
      MetadataOfMetadata(lines[..n]);
      assert lines[..n] + [lines[n]] == lines;
    }
  }

  lemma {:induction false} MetadataOfNone(lines: seq<string>)
    requires forall l :: l in lines ==> !IsMetadata(l)
    ensures MetadataLines(lines) == []
  {
    if lines != [] {
      MetadataOfNone(lines[..|lines| - 1]);
    }
  }

  /** `extract_metadata`, after the fetch: the loop that collects the lines. */
  method ExtractMetadata(lines: seq<string>) returns (meta: seq<string>)
    ensures meta == MetadataLines(lines)
  {
    meta := [];
    for i := 0 to |lines|
      invariant meta == MetadataLines(lines[..i])
    {
      assert lines[..i + 1][..i] == lines[..i];
      if StartsWith(lines[i], HeaderTag) || StartsWith(lines[i], SeparatorTag) {
        meta := meta + [lines[i]];
      }
    }
    assert lines[..|lines|] == lines;
  }
}
