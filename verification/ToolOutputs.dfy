/** The answer of a tool, taken apart at its markers. */
module ToolOutputs {
  import opened Wrappers

  const SOURCE_DOCUMENTS_PREFIX := "\n\n----FLOWISE_" + "SOURCE_DOCUMENTS----\n\n"
  const ARTIFACTS_PREFIX := "\n\n----FLOWISE_" + "ARTIFACTS----\n\n"
  const TOOL_ARGS_PREFIX := "\n\n----FLOWISE_" + "TOOL_ARGS----\n\n"

  /** Index of the first occurrence of `m`, or the length of the text. */
  function Find(s: string, m: string): (p: nat)
    requires m != ""
    ensures p <= |s| && (p < |s| ==> m <= s[p..]) && forall q | 0 <= q < p :: !(m <= s[q..])
  {
    if s == "" || m <= s then 0
    else
      var p := Find(s[1..], m) + 1;
      assert forall q | 1 <= q < p :: s[q..] == s[1..][q - 1..];
      p
  }

  /** The first two pieces of a text split at `m`; the second is there only when `m` is. */
  datatype Pieces = Pieces(first: string, second: Option<string>)

  function SplitAt(s: string, m: string): Pieces
    requires m != ""
  {
    var p := Find(s, m);
    if p == |s| then Pieces(s, None)
    else
      var rest := s[p + |m|..];
      Pieces(s[..p], Some(rest[..Find(rest, m)]))
  }

  /** What an answer says: the output, and the values behind the markers as far as they can be parsed. */
  datatype Parts = Parts(
    output: string,
    toolInput: Option<string>,
    document: Option<string>,
    artifact: Option<string>)

  function Parsed(parse: string -> Option<string>, text: Option<string>): Option<string> {
    if text.None? then None else parse(text.value)
  }

  function Explain(parse: string -> Option<string>, text: string): Parts {
    var documents := SplitAt(text, SOURCE_DOCUMENTS_PREFIX);
    var artifacts := SplitAt(documents.first, ARTIFACTS_PREFIX);
    var args := SplitAt(artifacts.first, TOOL_ARGS_PREFIX);
    Parts(args.first, Parsed(parse, args.second), Parsed(parse, documents.second), Parsed(parse, artifacts.second))
  }

  /** What is left is the start of the answer. */
  lemma OutputIsStart(parse: string -> Option<string>, text: string)
    ensures Explain(parse, text).output <= text
  {
  }

  // ---- what was put together is taken apart ----

  predicate Absent(s: string, m: string) { forall q | 0 <= q < |s| :: !(m <= s[q..]) }

  /** A marker put behind `s` is the first in the text. */
  predicate StartsNoneBefore(s: string, m: string) { forall q | 0 <= q < |s| :: !(m <= (s + m)[q..]) }

  lemma SplitAbsent(s: string, m: string)
    requires m != "" && Absent(s, m)
    ensures SplitAt(s, m) == Pieces(s, None)
  {
  }

  lemma MarkerWithin(before: string, m: string, rest: string, q: nat)
    requires m != "" && q < |before| && m <= (before + m + rest)[q..]
    ensures m <= (before + m)[q..]
  {
    var all := before + m + rest;
    assert all[q..][..|m|] == m;
    assert (before + m)[q..][..|m|] == all[q..][..|m|];
  }

  lemma SplitJoined(before: string, m: string, rest: string)
    requires m != "" && StartsNoneBefore(before, m) && Absent(rest, m)
    ensures SplitAt(before + m + rest, m) == Pieces(before, Some(rest))
  {
    var all := before + m + rest;
    assert all[|before|..] == m + rest;
    assert m <= all[|before|..];
    forall q | 0 <= q < |before| ensures !(m <= all[q..]) {
      if m <= all[q..] { MarkerWithin(before, m, rest, q); }
    }
    assert Find(all, m) == |before|;
    assert all[|before| + |m|..] == rest;
    assert Find(rest, m) == |rest| by { if Find(rest, m) < |rest| { assert m <= rest[Find(rest, m)..]; } }
    assert all[..|before|] == before && rest[..|rest|] == rest;
  }

  /** An answer made of an output, arguments, an artifact and documents is taken apart into them, when no piece holds
      or starts a marker of its own. */
  lemma ExplainsJoined(parse: string -> Option<string>, output: string, args: string, artifact: string,
                       documents: string)
    requires var withArgs := output + TOOL_ARGS_PREFIX + args;
      var withArtifact := withArgs + ARTIFACTS_PREFIX + artifact;
      && StartsNoneBefore(output, TOOL_ARGS_PREFIX) && Absent(args, TOOL_ARGS_PREFIX)
      && StartsNoneBefore(withArgs, ARTIFACTS_PREFIX) && Absent(artifact, ARTIFACTS_PREFIX)
      && StartsNoneBefore(withArtifact, SOURCE_DOCUMENTS_PREFIX) && Absent(documents, SOURCE_DOCUMENTS_PREFIX)
    ensures Explain(parse, output + TOOL_ARGS_PREFIX + args + ARTIFACTS_PREFIX + artifact
                           + SOURCE_DOCUMENTS_PREFIX + documents)
         == Parts(output, parse(args), parse(documents), parse(artifact))
  {
    hide StartsNoneBefore;
    hide Absent;
    hide SplitAt;
    SplitJoined(output, TOOL_ARGS_PREFIX, args);
    SplitJoined(output + TOOL_ARGS_PREFIX + args, ARTIFACTS_PREFIX, artifact);
    SplitJoined(output + TOOL_ARGS_PREFIX + args + ARTIFACTS_PREFIX + artifact, SOURCE_DOCUMENTS_PREFIX, documents);
  }

  /** An answer without markers is all output. */
  lemma ExplainsPlain(parse: string -> Option<string>, text: string)
    requires Absent(text, SOURCE_DOCUMENTS_PREFIX) && Absent(text, ARTIFACTS_PREFIX) && Absent(text, TOOL_ARGS_PREFIX)
    ensures Explain(parse, text) == Parts(text, None, None, None)
  {
    hide Absent;
    hide SplitAt;
    SplitAbsent(text, SOURCE_DOCUMENTS_PREFIX);
    SplitAbsent(text, ARTIFACTS_PREFIX);
    SplitAbsent(text, TOOL_ARGS_PREFIX);
  }
}
