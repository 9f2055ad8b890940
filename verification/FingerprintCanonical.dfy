/** Fingerprints are canonical: a key says what was normalised, no more and no less. */
module FingerprintCanonical {
  import opened Common
  import opened Text
  import opened Fingerprint

  // ----- the normal form of a text is its words -----

  /** What the loop leaves behind the last word. */
  function Tail(s: string): string {
    if s != [] && !IsWordChar(s[|s| - 1]) && Words(s) != [] then " " else ""
  }

  ghost predicate NoCapitals(s: string) {
    forall i :: 0 <= i < |s| ==> !('A' <= s[i] <= 'Z')
  }

  lemma SquashAfterWord(s: string)
    requires NoCapitals(s)
    ensures Squash(s, false) == (if s != [] && !IsWordChar(s[0]) then " " else "") + Squash(s, true)
  {
    assert "" + Squash(s, true) == Squash(s, true);
  }

  lemma {:induction false} SquashIsWords(s: string)
    requires NoCapitals(s)
    ensures Squash(s, true) == Join(Words(s), ' ') + Tail(s)
  {
    if s != [] {
      var rest := s[1..];
      SquashIsWords(rest);
      SquashAfterWord(rest);
      assert rest != [] ==> rest[|rest| - 1] == s[|s| - 1];
      if IsWordChar(s[0]) && |s| > 1 {
        SquashWord(s);
      }
    }
  }

  /** A text that starts with a word character: the word goes on, or it ends here. */
  lemma SquashWord(s: string)
    requires |s| > 1 && IsWordChar(s[0])
    requires Squash(s[1..], true) == Join(Words(s[1..]), ' ') + Tail(s[1..])
    requires Squash(s[1..], false) == (if !IsWordChar(s[1]) then " " else "") + Squash(s[1..], true)
    ensures Squash(s, true) == Join(Words(s), ' ') + Tail(s)
  {
    hide *;
    var c, rest := s[0], s[1..];
    var j, tail := Join(Words(rest), ' '), Tail(rest);
    SquashHead(s);
    if IsWordChar(s[1]) {
      JoinGrown(s);
      Regroup(c, "", j, tail);
    } else {
      JoinStarted(s);
      Regroup(c, " ", j, tail);
    }
  }

  lemma Regroup(c: char, sep: string, j: string, tail: string)
    ensures [c] + (sep + (j + tail)) == [c] + sep + j + tail
    ensures [c] + "" == [c]
    ensures [c] + sep + "" + "" == [c] + sep
  {
  }

  lemma SquashHead(s: string)
    requires s != [] && IsWordChar(s[0])
    ensures Squash(s, true) == [s[0]] + Squash(s[1..], false)
  {
  }

  lemma JoinGrown(s: string)
    requires |s| > 1 && IsWordChar(s[0]) && IsWordChar(s[1])
    ensures Join(Words(s), ' ') == [s[0]] + Join(Words(s[1..]), ' ') && Tail(s) == Tail(s[1..])
  {
    JoinHead(s[0], Words(s[1..]));
  }

  lemma JoinStarted(s: string)
    requires |s| > 1 && IsWordChar(s[0]) && !IsWordChar(s[1])
    ensures var ws := Words(s[1..]);
      if ws == [] then Join(Words(s), ' ') == [s[0]] && Tail(s) == " " && Join(ws, ' ') == "" && Tail(s[1..]) == ""
      else Join(Words(s), ' ') == [s[0]] + " " + Join(ws, ' ') && Tail(s) == Tail(s[1..])
  {
    var c, ws := s[0], Words(s[1..]);
    assert Words(s) == [[c]] + ws;
    if ws == [] {
      NoWords(s[1..]);
    } else {
      assert ([[c]] + ws)[1..] == ws;
    }
  }

  lemma {:induction false} NoWords(s: string)
    requires Words(s) == []
    ensures forall i :: 0 <= i < |s| ==> !IsWordChar(s[i])
  {
    if s != [] {
      NoWords(s[1..]);
    }
  }

  lemma JoinHead(c: char, ws: seq<string>)
    requires ws != []
    ensures Join([[c] + ws[0]] + ws[1..], ' ') == [c] + Join(ws, ' ')
  {
    hide *;
    var longer := [[c] + ws[0]] + ws[1..];
    assert longer[1..] == ws[1..];
    JoinHeadTail(longer);
    JoinHeadTail(ws);
    Associate([c], ws[0], if |ws| == 1 then "" else " " + Join(ws[1..], ' '));
  }

  lemma JoinHeadTail(ws: seq<string>)
    requires ws != []
    ensures Join(ws, ' ') == ws[0] + if |ws| == 1 then "" else " " + Join(ws[1..], ' ')
  {
    if |ws| == 1 {
      assert ws[0] + "" == ws[0];
    } else {
      Associate(ws[0], " ", Join(ws[1..], ' '));
    }
  }

  lemma Associate(a: string, b: string, c: string)
    ensures a + b + c == a + (b + c)
  {
  }

  lemma {:induction false} LoweredHasNoCapitals(lower: CaseMap, s: string)
    requires LowerCases(lower)
    ensures NoCapitals(Lowered(lower, s))
  {
    if s != [] {
      LoweredHasNoCapitals(lower, s[1..]);
    }
  }

  lemma {:induction false} JoinEnds(ws: seq<string>)
    requires AllWords(ws) && ws != []
    ensures var j := Join(ws, ' ');
      j != [] && IsWordChar(j[0]) && IsWordChar(j[|j| - 1])
  {
    assert IsWord(ws[0]);
    if |ws| > 1 {
      JoinEnds(ws[1..]);
    }
  }

  lemma TrimStartOf(head: string, body: string)
    requires (head == "" || head == " ") && (body == "" || IsWordChar(body[0]))
    ensures TrimStart(head + body) == body
  {
    assert "" + body == body && (" " + body)[1..] == body;
  }

  lemma TrimEndOf(body: string, tail: string)
    requires (tail == "" || tail == " ") && (body == "" || IsWordChar(body[|body| - 1]))
    ensures TrimEnd(body + tail) == body
  {
    assert body + "" == body && (body + " ")[..|body + " "| - 1] == body;
  }

  lemma TrimWords(ws: seq<string>, head: string, tail: string)
    requires AllWords(ws) && (head == "" || head == " ") && (tail == "" || tail == " ")
    requires ws == [] ==> tail == ""
    ensures TrimEnd(TrimStart(head + (Join(ws, ' ') + tail))) == Join(ws, ' ')
  {
    var j := Join(ws, ' ');
    if ws == [] {
      assert j + tail == "";
    } else {
      JoinEnds(ws);
      assert (j + tail)[0] == j[0];
    }
    hide Join, TrimStart, TrimEnd;
    TrimStartOf(head, j + tail);
    TrimEndOf(j, tail);
  }

  /** The words of a text, its letters lowered. */
  function WordsOf(lower: CaseMap, s: string): seq<string> {
    Words(Lowered(lower, s))
  }

  /** The normal form is the lower-case words joined by single blanks. */
  lemma NormalTextIsWords(lower: CaseMap, s: string)
    requires LowerCases(lower)
    ensures NormalizeText(lower, s) == Join(WordsOf(lower, s), ' ')
  {
    var l := Lowered(lower, s);
    LoweredHasNoCapitals(lower, s);
    SquashIsWords(l);
    SquashAfterWord(l);
    WordsAreWords(l);
    TrimWords(Words(l), if l != [] && !IsWordChar(l[0]) then " " else "", Tail(l));
  }

  lemma {:induction false} ReplaceConcat(a: string, b: string)
    ensures ReplaceBlanks(a + b) == ReplaceBlanks(a) + ReplaceBlanks(b)
  {
    if a == [] {
      assert a + b == b;
    } else {
      assert (a + b)[1..] == a[1..] + b;
      ReplaceConcat(a[1..], b);
    }
  }

  lemma {:induction false} ReplaceWord(w: string)
    requires forall i :: 0 <= i < |w| ==> IsWordChar(w[i])
    ensures ReplaceBlanks(w) == w
  {
    if w != [] {
      ReplaceWord(w[1..]);
    }
  }

  lemma {:induction false} ReplaceJoin(ws: seq<string>)
    requires AllWords(ws)
    ensures ReplaceBlanks(Join(ws, ' ')) == Join(ws, '_')
  {
    if ws != [] {
      assert IsWord(ws[0]);
      ReplaceWord(ws[0]);
      if |ws| > 1 {
        ReplaceJoin(ws[1..]);
        ReplaceConcat(ws[0] + [' '], Join(ws[1..], ' '));
        ReplaceConcat(ws[0], [' ']);
        assert ReplaceBlanks([' ']) == ['_'];
      }
    }
  }

  /** The normal form of a token is the same words joined by underscores. */
  lemma NormalTokenIsWords(lower: CaseMap, s: string)
    requires LowerCases(lower)
    ensures NormalizeToken(lower, s) == Join(WordsOf(lower, s), '_')
  {
    NormalTextIsWords(lower, s);
    WordsAreWords(Lowered(lower, s));
    ReplaceJoin(WordsOf(lower, s));
  }

  /** Normal forms agree exactly when the words agree. */
  lemma SameNormalForm(lower: CaseMap, s: string, t: string)
    requires LowerCases(lower)
    ensures NormalizeText(lower, s) == NormalizeText(lower, t) <==> WordsOf(lower, s) == WordsOf(lower, t)
    ensures NormalizeToken(lower, s) == NormalizeToken(lower, t) <==> WordsOf(lower, s) == WordsOf(lower, t)
  {
    NormalTextIsWords(lower, s);
    NormalTextIsWords(lower, t);
    NormalTokenIsWords(lower, s);
    NormalTokenIsWords(lower, t);
    WordsAreWords(Lowered(lower, s));
    WordsAreWords(Lowered(lower, t));
    WordsOfJoin(WordsOf(lower, s), ' ');
    WordsOfJoin(WordsOf(lower, t), ' ');
    WordsOfJoin(WordsOf(lower, s), '_');
    WordsOfJoin(WordsOf(lower, t), '_');
    hide NormalizeText, NormalizeToken, Words, Join, Lowered;
  }

  ghost predicate SameLetter(c: char, d: char) {
    || c == d
    || ('A' <= c <= 'Z' && d as int == c as int + 32)
    || ('A' <= d <= 'Z' && c as int == d as int + 32)
  }

  /** Texts that differ in the case of ASCII letters only have the same normal form. */
  lemma {:induction false} CaseIsIgnored(lower: CaseMap, s: string, t: string)
    requires LowerCases(lower) && |s| == |t| && forall i :: 0 <= i < |s| ==> SameLetter(s[i], t[i])
    ensures Lowered(lower, s) == Lowered(lower, t)
    ensures NormalizeText(lower, s) == NormalizeText(lower, t)
    ensures NormalizeToken(lower, s) == NormalizeToken(lower, t)
  {
    hide Squash, TrimStart, TrimEnd, ReplaceBlanks;
    if s != [] {
      CaseIsIgnored(lower, s[1..], t[1..]);
      LetterIsLowered(lower, s[0], t[0]);
    }
  }

  lemma LetterIsLowered(lower: CaseMap, c: char, d: char)
    requires LowerCases(lower) && SameLetter(c, d)
    ensures lower(c) == lower(d)
  {
  }

  // ----- idempotence -----

  ghost predicate PlainText(s: string) {
    forall i :: 0 <= i < |s| ==> IsWordChar(s[i]) || s[i] == ' ' || s[i] == '_'
  }

  lemma {:induction false} JoinIsPlain(ws: seq<string>, c: char)
    requires AllWords(ws) && (c == ' ' || c == '_')
    ensures PlainText(Join(ws, c))
  {
    if ws != [] {
      assert IsWord(ws[0]);
      if |ws| > 1 {
        JoinIsPlain(ws[1..], c);
      }
    }
  }

  lemma {:induction false} PlainIsLowered(lower: CaseMap, s: string)
    requires LowerCases(lower) && PlainText(s)
    ensures Lowered(lower, s) == s
  {
    if s != [] {
      PlainIsLowered(lower, s[1..]);
      assert lower(s[0]) == [s[0]];
    }
  }

  lemma WordsSurvive(lower: CaseMap, ws: seq<string>, c: char)
    requires LowerCases(lower) && AllWords(ws) && (c == ' ' || c == '_')
    ensures WordsOf(lower, Join(ws, c)) == ws
  {
    JoinIsPlain(ws, c);
    PlainIsLowered(lower, Join(ws, c));
    WordsOfJoin(ws, c);
  }

  /** Both normalisers are idempotent, and the text normaliser undoes the token normaliser. */
  lemma NormalisersAreIdempotent(lower: CaseMap, s: string)
    requires LowerCases(lower)
    ensures var text, token := NormalizeText(lower, s), NormalizeToken(lower, s);
      && NormalizeText(lower, text) == text
      && NormalizeToken(lower, token) == token
      && NormalizeText(lower, token) == text
  {
    var ws := WordsOf(lower, s);
    WordsAreWords(Lowered(lower, s));
    NormalTextIsWords(lower, s);
    NormalTokenIsWords(lower, s);
    WordsSurvive(lower, ws, ' ');
    WordsSurvive(lower, ws, '_');
    NormalTextIsWords(lower, Join(ws, ' '));
    NormalTextIsWords(lower, Join(ws, '_'));
    NormalTokenIsWords(lower, Join(ws, '_'));
  }

  // ----- keys can be read back -----

  lemma PlainLacks(s: string)
    requires PlainText(s)
    ensures Lacks(s, '|') && Lacks(s, '=') && Lacks(s, ',')
  {
  }

  lemma NormalFormsLack(lower: CaseMap, s: string)
    requires LowerCases(lower)
    ensures forall c <- {'|', '=', ','} ::
      Lacks(NormalizeText(lower, s), c) && Lacks(NormalizeToken(lower, s), c)
  {
    WordsAreWords(Lowered(lower, s));
    NormalTextIsWords(lower, s);
    NormalTokenIsWords(lower, s);
    JoinIsPlain(WordsOf(lower, s), ' ');
    JoinIsPlain(WordsOf(lower, s), '_');
    PlainLacks(NormalizeText(lower, s));
    PlainLacks(NormalizeToken(lower, s));
  }

  lemma {:induction false} NormalizedToolsLack(lower: CaseMap, tools: seq<string>)
    requires LowerCases(lower)
    ensures forall t <- NormalizedTools(lower, tools) :: t != "" && Lacks(t, ',') && Lacks(t, '|')
  {
    if tools != [] {
      NormalizedToolsLack(lower, tools[1..]);
      NormalFormsLack(lower, tools[0]);
    }
  }

  lemma {:induction false} NonEmptyKeeps(pieces: seq<string>)
    requires forall p <- pieces :: p != ""
    ensures NonEmpty(pieces) == pieces
  {
    if pieces != [] {
      assert pieces[0] in pieces && forall p <- pieces[1..] :: p in pieces;
      NonEmptyKeeps(pieces[1..]);
    }
  }

  lemma ToolsReadBack(lower: CaseMap, tools: seq<string>)
    requires LowerCases(lower)
    ensures var names := ToolNames(lower, tools);
      NonEmpty(Split(Join(names, ','), ',')) == names && Lacks(Join(names, ','), '|')
  {
    var names := ToolNames(lower, tools);
    NormalizedToolsLack(lower, tools);
    SortedSetSorts(NormalizedTools(lower, tools));
    JoinLacks(names, ',', '|');
    if names == [] {
      assert NonEmpty([""]) == [] by {
        assert [""][1..] == [];
      }
    } else {
      SplitJoin(names, ',');
      NonEmptyKeeps(names);
    }
  }

  lemma FieldLacksBar(name: string, value: string)
    requires Lacks(name, '|') && Lacks(value, '|')
    ensures Lacks(name + "=" + value, '|')
  {
  }

  lemma SplitFour(a: string, b: string, c: string, d: string)
    requires Lacks(a, '|') && Lacks(b, '|') && Lacks(c, '|') && Lacks(d, '|')
    ensures Split(a + "|" + (b + "|" + (c + "|" + d)), '|') == [a, b, c, d]
  {
    SplitFirst(a, '|', b + "|" + (c + "|" + d));
    SplitFirst(b, '|', c + "|" + d);
    SplitFirst(c, '|', d);
    SplitOnly(d, '|');
  }

  lemma ParseFour(agent: string, mode: string, text: string, tools: string)
    ensures ParseFields(["agent" + "=" + agent, "mode" + "=" + mode, "text" + "=" + text, "tools" + "=" + tools],
                        NO_FIELDS)
         == Some(Fields(Some(agent), Some(mode), Some(text), NonEmpty(Split(tools, ','))))
  {
    SplitOnceFirst("agent", '=', agent);
    SplitOnceFirst("mode", '=', mode);
    SplitOnceFirst("text", '=', text);
    SplitOnceFirst("tools", '=', tools);
    hide Split, NonEmpty, SplitOnce;
    var a, m, t, o := "agent" + "=" + agent, "mode" + "=" + mode, "text" + "=" + text, "tools" + "=" + tools;
    var f1 := NO_FIELDS.(agentId := Some(agent));
    var f2 := f1.(promptMode := Some(mode));
    var f3 := f2.(text := Some(text));
    var f4 := f3.(tools := NonEmpty(Split(tools, ',')));
    assert [a, m, t, o][1..] == [m, t, o] && [m, t, o][1..] == [t, o] && [t, o][1..] == [o] && [o][1..] == [];
    assert ParseFields([o], f3) == ParseFields([], f4);
    assert ParseFields([t, o], f2) == ParseFields([o], f3);
    assert ParseFields([m, t, o], f1) == ParseFields([t, o], f2);
  }

  /** Parsing a key gives back exactly what was normalised into it. */
  lemma KeyReadsBack(lower: CaseMap, agentId: string, promptMode: string, text: string, tools: seq<string>)
    requires LowerCases(lower)
    ensures Parse(FromParts(lower, agentId, promptMode, text, tools))
         == Some(Parts(NormalizeToken(lower, agentId), NormalizeToken(lower, promptMode),
                       NormalizeText(lower, text), ToolNames(lower, tools)))
  {
    NormalFormsLack(lower, agentId);
    NormalFormsLack(lower, promptMode);
    NormalFormsLack(lower, text);
    ToolsReadBack(lower, tools);
    hide NormalizeToken, NormalizeText, ToolNames, Join, Split, NonEmpty, ParseFields, KeyBody;
    var a, m, t := NormalizeToken(lower, agentId), NormalizeToken(lower, promptMode), NormalizeText(lower, text);
    var o := Join(ToolNames(lower, tools), ',');
    BodyReadsBack(a, m, t, o);
    assert (VERSION + KeyBody(a, m, t, o))[|VERSION|..] == KeyBody(a, m, t, o);
  }

  lemma BodyReadsBack(a: string, m: string, t: string, o: string)
    requires Lacks(a, '|') && Lacks(m, '|') && Lacks(t, '|') && Lacks(o, '|')
    ensures ParseFields(Split(KeyBody(a, m, t, o), '|'), NO_FIELDS)
         == Some(Fields(Some(a), Some(m), Some(t), NonEmpty(Split(o, ','))))
  {
    hide Split, NonEmpty, ParseFields;
    FieldLacksBar("agent", a);
    FieldLacksBar("mode", m);
    FieldLacksBar("text", t);
    FieldLacksBar("tools", o);
    SplitFour("agent" + "=" + a, "mode" + "=" + m, "text" + "=" + t, "tools" + "=" + o);
    ParseFour(a, m, t, o);
  }

  lemma {:induction false} NormalizedToolsAre(lower: CaseMap, tools: seq<string>, t: string)
    ensures t in NormalizedTools(lower, tools) <==> t != "" && exists tool <- tools :: NormalizeToken(lower, tool) == t
  {
    if tools != [] {
      NormalizedToolsAre(lower, tools[1..], t);
      assert tools == [tools[0]] + tools[1..];
    }
  }

  /** The key spelled out: agent and mode as tokens, the text as words, and the tools as an increasing
      list of the tokens of the tools given, empty ones left out. */
  lemma KeyFormat(lower: CaseMap, agentId: string, promptMode: string, text: string, tools: seq<string>)
      returns (names: seq<string>)
    requires LowerCases(lower)
    ensures FromParts(lower, agentId, promptMode, text, tools)
         == "v1|agent=" + Join(WordsOf(lower, agentId), '_') + "|mode=" + Join(WordsOf(lower, promptMode), '_')
            + "|text=" + Join(WordsOf(lower, text), ' ') + "|tools=" + Join(names, ',')
    ensures StrictlyIncreasing(names)
    ensures forall t :: t in names <==> t != "" && exists tool <- tools :: Join(WordsOf(lower, tool), '_') == t
  {
    names := ToolNames(lower, tools);
    SortedSetSorts(NormalizedTools(lower, tools));
    NormalTokenIsWords(lower, agentId);
    NormalTokenIsWords(lower, promptMode);
    NormalTextIsWords(lower, text);
    forall t ensures t in names <==> t != "" && exists tool <- tools :: Join(WordsOf(lower, tool), '_') == t {
      NormalizedToolsAre(lower, tools, t);
      forall tool <- tools ensures NormalizeToken(lower, tool) == Join(WordsOf(lower, tool), '_') {
        NormalTokenIsWords(lower, tool);
      }
    }
    hide NormalizeToken, NormalizeText, ToolNames, Join, WordsOf, NormalizedTools, StrictlyIncreasing;
    KeySpelled(Join(WordsOf(lower, agentId), '_'), Join(WordsOf(lower, promptMode), '_'),
               Join(WordsOf(lower, text), ' '), Join(names, ','));
  }

  lemma KeySpelled(a: string, m: string, t: string, o: string)
    ensures VERSION + KeyBody(a, m, t, o) == "v1|agent=" + a + "|mode=" + m + "|text=" + t + "|tools=" + o
  {
    var k := "v1|agent=" + a + "|mode=" + m + "|text=" + t + "|tools=" + o;
    assert VERSION + (("agent" + "=" + a) + "|") == "v1|agent=" + a + "|";
    assert ("mode" + "=" + m) + "|" == "mode=" + m + "|";
    assert ("text" + "=" + t) + "|" == "text=" + t + "|";
  }

  // ----- what equal keys mean -----

  ghost predicate SameTools(lower: CaseMap, a: seq<string>, b: seq<string>) {
    forall t :: t in NormalizedTools(lower, a) <==> t in NormalizedTools(lower, b)
  }

  lemma SameToolNames(lower: CaseMap, a: seq<string>, b: seq<string>)
    ensures ToolNames(lower, a) == ToolNames(lower, b) <==> SameTools(lower, a, b)
  {
    SortedSetSorts(NormalizedTools(lower, a));
    SortedSetSorts(NormalizedTools(lower, b));
    if SameTools(lower, a, b) {
      ListingIsUnique(ToolNames(lower, a), ToolNames(lower, b));
    }
  }

  /** Two keys are equal iff agent, mode and text have the same words and the tools are the
      same set of normal forms: order, repetition, case and punctuation do not count. */
  lemma EqualKeys(lower: CaseMap,
                  agent1: string, mode1: string, text1: string, tools1: seq<string>,
                  agent2: string, mode2: string, text2: string, tools2: seq<string>)
    requires LowerCases(lower)
    ensures FromParts(lower, agent1, mode1, text1, tools1) == FromParts(lower, agent2, mode2, text2, tools2)
       <==> && WordsOf(lower, agent1) == WordsOf(lower, agent2)
            && WordsOf(lower, mode1) == WordsOf(lower, mode2)
            && WordsOf(lower, text1) == WordsOf(lower, text2)
            && SameTools(lower, tools1, tools2)
  {
    KeyReadsBack(lower, agent1, mode1, text1, tools1);
    KeyReadsBack(lower, agent2, mode2, text2, tools2);
    SameNormalForm(lower, agent1, agent2);
    SameNormalForm(lower, mode1, mode2);
    SameNormalForm(lower, text1, text2);
    SameToolNames(lower, tools1, tools2);
    hide Parse, ToolNames, NormalizeToken, NormalizeText, WordsOf, SameTools;
  }

  /** A key matches a request iff agent, mode and text have the same words. */
  lemma MatchesSameWords(lower: CaseMap, agent1: string, mode1: string, text1: string, tools: seq<string>,
                         agent2: string, mode2: string, text2: string)
    requires LowerCases(lower)
    ensures Matches(lower, FromParts(lower, agent1, mode1, text1, tools), agent2, mode2, text2)
       <==> && WordsOf(lower, agent1) == WordsOf(lower, agent2)
            && WordsOf(lower, mode1) == WordsOf(lower, mode2)
            && WordsOf(lower, text1) == WordsOf(lower, text2)
  {
    KeyReadsBack(lower, agent1, mode1, text1, tools);
    SameNormalForm(lower, agent1, agent2);
    SameNormalForm(lower, mode1, mode2);
    SameNormalForm(lower, text1, text2);
    hide Parse, FromParts, NormalizeToken, NormalizeText, WordsOf;
  }
}
