/**
 The string tags that the command line tool stores on feeds, and the regular
 expression `from-list:(?P<opml>.+)` it uses to read a provenance tag back.
 */
module Tags {
  import opened Wrappers

  /** Carried by a feed that is itself an OPML subscription list. */
  const ListTag: string := "list"
  /** Carried by a feed whose presence in the store comes from some list. */
  const FromList: string := "from-list"
  /** Prefix of the provenance tag `from-list:<list-url>`. */
  const ProvenancePrefix: string := "from-list:"
  /** Transient sweep marker set at the start of each reconciliation. */
  const Marker: string := "not-in-list-anymore"

  /** The provenance tag recording that a feed came from the list at `listUrl`. */
  function ProvenanceTag(listUrl: string): string
  {
    ProvenancePrefix + listUrl
  }

  /** No provenance tag coincides with one of the three fixed tags. */
  lemma ProvenanceTagIsNotFixed(listUrl: string)
    ensures ProvenanceTag(listUrl) != Marker
    ensures ProvenanceTag(listUrl) != FromList
    ensures ProvenanceTag(listUrl) != ListTag
  {
    assert ProvenanceTag(listUrl)[0] == 'f' && Marker[0] == 'n';
    assert |ProvenanceTag(listUrl)| >= 10 && |FromList| == 9;
    assert ProvenanceTag(listUrl)[0] == 'f' && ListTag[0] == 'l';
  }

  /** The longest prefix of `s` that contains no newline: what `.+` consumes,
      since `.` matches every character except a newline. */
  function UpToNewline(s: string): (r: string)
    ensures r <= s
    ensures '\n' !in r
    ensures |r| == |s| || s[|r|] == '\n'
  {
    if s == [] || s[0] == '\n' then [] else [s[0]] + UpToNewline(s[1..])
  }

  /** `re.match(r"from-list:(?P<opml>.+)", tag)` followed by `group("opml")`:
      the match is anchored at the start of the tag but not at its end, and
      the group takes every character up to the first newline, at least one. */
  function MatchProvenance(tag: string): (r: Option<string>)
    ensures r.Some? <==>
      ProvenancePrefix <= tag && |tag| > |ProvenancePrefix| && tag[|ProvenancePrefix|] != '\n'
    ensures r.Some? ==>
      r.value != [] && '\n' !in r.value && ProvenancePrefix + r.value <= tag
    ensures r.Some? ==>
      |ProvenancePrefix + r.value| == |tag| || tag[|ProvenancePrefix + r.value|] == '\n'
  {
    if ProvenancePrefix <= tag then
      var group := UpToNewline(tag[|ProvenancePrefix|..]);
      if group == [] then None else Some(group)
    else
      None
  }

  /** Reading back the provenance tag of a list URL gives that URL, provided
      the URL is non-empty and has no newline (which the regex would cut off). */
  lemma {:induction false} MatchProvenanceTag(listUrl: string)
    requires listUrl != [] && '\n' !in listUrl
    ensures MatchProvenance(ProvenanceTag(listUrl)) == Some(listUrl)
  {
    UpToNewlineOfLine(listUrl);
    assert ProvenanceTag(listUrl)[|ProvenancePrefix|..] == listUrl;
  }

  lemma {:induction false} UpToNewlineOfLine(s: string)
    requires '\n' !in s
    ensures UpToNewline(s) == s
  {
    if s != [] {
      UpToNewlineOfLine(s[1..]);
    }
  }

  /** A list URL containing a newline is read back truncated: the regex does
      not recover it. */
  lemma NewlineListUrlIsTruncated()
    ensures MatchProvenance(ProvenanceTag("a\nb")) == Some("a")
  {
    assert ProvenanceTag("a\nb")[|ProvenancePrefix|..] == "a\nb";
    assert UpToNewline("\nb") == [];
    assert UpToNewline("a\nb") == "a";
  }
}
