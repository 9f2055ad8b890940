/** Task fingerprints: a canonicalising printer, its parser, and the request matcher.

    `lower` is the lower-casing of one character, which can give several characters. Of it
    only the ASCII part is fixed, and that it never gives an ASCII capital. */
module Fingerprint {
  import opened Common
  import opened Text

  type CaseMap = char -> string

  ghost predicate LowerCases(lower: CaseMap) {
    && (forall c :: 'A' <= c <= 'Z' ==> lower(c) == [c - 'A' + 'a'])
    && (forall c :: c as int < 128 && !('A' <= c <= 'Z') ==> lower(c) == [c])
    && (forall c, i :: 0 <= i < |lower(c)| ==> !('A' <= lower(c)[i] <= 'Z'))
  }

  predicate IsAsciiAlphanumeric(c: char) {
    'a' <= c <= 'z' || 'A' <= c <= 'Z' || '0' <= c <= '9'
  }

  function Lowered(lower: CaseMap, s: string): string {
    if s == [] then [] else lower(s[0]) + Lowered(lower, s[1..])
  }

  function TrimStart(s: string): string {
    if s != [] && s[0] == ' ' then TrimStart(s[1..]) else s
  }

  function TrimEnd(s: string): string {
    if s != [] && s[|s| - 1] == ' ' then TrimEnd(s[..|s| - 1]) else s
  }

  /** The loop of the normaliser: word characters stay, any other run becomes one blank. */
  function Squash(s: string, lastWasSep: bool): string {
    if s == [] then []
    else if IsAsciiAlphanumeric(s[0]) then [s[0]] + Squash(s[1..], false)
    else if !lastWasSep then " " + Squash(s[1..], true)
    else Squash(s[1..], true)
  }

  function NormalizeText(lower: CaseMap, s: string): string {
    TrimEnd(TrimStart(Squash(Lowered(lower, s), false)))
  }

  function ReplaceBlanks(s: string): string {
    if s == [] then [] else [if s[0] == ' ' then '_' else s[0]] + ReplaceBlanks(s[1..])
  }

  function NormalizeToken(lower: CaseMap, s: string): string {
    ReplaceBlanks(NormalizeText(lower, s))
  }

  method ComputeNormalizedText(lower: CaseMap, input: string) returns (r: string)
    ensures r == NormalizeText(lower, input)
  {
    var out, lastWasSep := "", false;
    var chars := Lowered(lower, input);
    for k := 0 to |chars|
      invariant out + Squash(chars[k..], lastWasSep) == Squash(chars, false)
    {
      var ch := chars[k];
      assert chars[k..][0] == ch && chars[k..][1..] == chars[k + 1..];
      ghost var rest := chars[k + 1..];
      if IsAsciiAlphanumeric(ch) {
        assert out + ([ch] + Squash(rest, false)) == (out + [ch]) + Squash(rest, false);
        out, lastWasSep := out + [ch], false;
      } else if !lastWasSep {
        assert out + (" " + Squash(rest, true)) == (out + " ") + Squash(rest, true);
        out, lastWasSep := out + " ", true;
      }
    }
    assert chars[|chars|..] == [] && out + [] == out;
    r := TrimEnd(TrimStart(out));
  }

  // ----- keys -----

  datatype Parts = Parts(agentId: string, promptMode: string, text: string, tools: seq<string>)

  const VERSION := "v1|"

  function NormalizedTools(lower: CaseMap, tools: seq<string>): seq<string> {
    if tools == [] then []
    else
      var tool := NormalizeToken(lower, tools[0]);
      (if tool == "" then [] else [tool]) + NormalizedTools(lower, tools[1..])
  }

  function ToolNames(lower: CaseMap, tools: seq<string>): seq<string> {
    SortedSet(NormalizedTools(lower, tools))
  }

  function FromParts(lower: CaseMap, agentId: string, promptMode: string, text: string, tools: seq<string>): string {
    VERSION + KeyBody(NormalizeToken(lower, agentId), NormalizeToken(lower, promptMode),
                      NormalizeText(lower, text), Join(ToolNames(lower, tools), ','))
  }

  function KeyBody(agentId: string, promptMode: string, text: string, tools: string): string {
    ("agent" + "=" + agentId) + "|"
    + (("mode" + "=" + promptMode) + "|" + (("text" + "=" + text) + "|" + ("tools" + "=" + tools)))
  }

  datatype Fields = Fields(
    agentId: Option<string>,
    promptMode: Option<string>,
    text: Option<string>,
    tools: seq<string>)

  function NonEmpty(pieces: seq<string>): seq<string> {
    if pieces == [] then []
    else if pieces[0] == "" then NonEmpty(pieces[1..])
    else [pieces[0]] + NonEmpty(pieces[1..])
  }

  function Assign(f: Fields, name: string, value: string): Fields {
    if name == "agent" then f.(agentId := Some(value))
    else if name == "mode" then f.(promptMode := Some(value))
    else if name == "text" then f.(text := Some(value))
    else if name == "tools" then f.(tools := NonEmpty(Split(value, ',')))
    else f
  }

  function ParseFields(pieces: seq<string>, f: Fields): Option<Fields>
    decreases |pieces|
  {
    if pieces == [] then Some(f)
    else
      match SplitOnce(pieces[0], '=')
      case None => None
      case Some((name, value)) => ParseFields(pieces[1..], Assign(f, name, value))
  }

  const NO_FIELDS := Fields(None, None, None, [])

  function Parse(key: string): Option<Parts> {
    if !(VERSION <= key) then None
    else
      match ParseFields(Split(key[|VERSION|..], '|'), NO_FIELDS)
      case None => None
      case Some(f) =>
        if f.agentId.None? || f.promptMode.None? || f.text.None? then None
        else Some(Parts(f.agentId.value, f.promptMode.value, f.text.value, f.tools))
  }

  method ParseTaskFingerprint(key: string) returns (r: Option<Parts>)
    ensures r == Parse(key)
  {
    if !(VERSION <= key) {
      return None;
    }
    var agentId, promptMode, text: Option<string>, tools: seq<string> := None, None, None, [];
    var pieces := Split(key[|VERSION|..], '|');
    for k := 0 to |pieces|
      invariant ParseFields(pieces, NO_FIELDS)
             == ParseFields(pieces[k..], Fields(agentId, promptMode, text, tools))
    {
      assert pieces[k..][0] == pieces[k] && pieces[k..][1..] == pieces[k + 1..];
      var pair := SplitOnce(pieces[k], '=');
      if pair.None? {
        return None;
      }
      var (name, value) := pair.value;
      if name == "agent" {
        agentId := Some(value);
      } else if name == "mode" {
        promptMode := Some(value);
      } else if name == "text" {
        text := Some(value);
      } else if name == "tools" {
        tools := NonEmpty(Split(value, ','));
      }
    }
    assert pieces[|pieces|..] == [];
    if agentId.None? || promptMode.None? || text.None? {
      return None;
    }
    r := Some(Parts(agentId.value, promptMode.value, text.value, tools));
  }

  /** Whether a stored key is the key of a request, tools aside. */
  predicate Matches(lower: CaseMap, key: string, agentId: string, promptMode: string, text: string) {
    match Parse(key)
    case None => false
    case Some(parts) =>
      && parts.agentId == NormalizeToken(lower, agentId)
      && parts.promptMode == NormalizeToken(lower, promptMode)
      && parts.text == NormalizeText(lower, text)
  }
}
