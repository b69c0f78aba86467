/** Merging the text of two project elements, word by word. */
module TextMerge {
  import opened Options
  import opened Picking

  const SEP: char := ' '

  // ---------------------------------------------------------------- strings

  /** The ASCII whitespace of Python. */
  predicate IsSpace(c: char) {
    c == SEP || '\t' <= c <= '\r' || '\U{1c}' <= c <= '\U{1f}'
  }

  function LeftStrip(s: string): string {
    if s != "" && IsSpace(s[0]) then LeftStrip(s[1..]) else s
  }

  function RightStrip(s: string): string {
    if s != "" && IsSpace(s[|s| - 1]) then RightStrip(s[..|s| - 1]) else s
  }

  function Strip(s: string): string {
    RightStrip(LeftStrip(s))
  }

  /** Neither end is whitespace. */
  predicate Stripped(s: string) {
    s == "" || (!IsSpace(s[0]) && !IsSpace(s[|s| - 1]))
  }

  /** Split at every separator: consecutive separators give empty words. */
  function Split(s: string): (ws: seq<string>)
    ensures |ws| > 0
  {
    if s == "" then [""]
    else
      var rest := Split(s[1..]);
      if s[0] == SEP then [""] + rest else [[s[0]] + rest[0]] + rest[1..]
  }

  function Join(ws: seq<string>): string {
    if ws == [] then ""
    else if |ws| == 1 then ws[0]
    else ws[0] + [SEP] + Join(ws[1..])
  }

  predicate NoSep(ws: seq<string>) {
    forall i :: 0 <= i < |ws| ==> SEP !in ws[i]
  }

  lemma {:induction false} LeftStripIs(s: string)
    ensures LeftStrip(s) == "" || !IsSpace(LeftStrip(s)[0])
    ensures |LeftStrip(s)| <= |s| && LeftStrip(s) == s[|s| - |LeftStrip(s)|..]
  {
    if s != "" && IsSpace(s[0]) { LeftStripIs(s[1..]); }
  }

  lemma {:induction false} RightStripIs(s: string)
    ensures RightStrip(s) <= s
    ensures RightStrip(s) == "" || !IsSpace(RightStrip(s)[|RightStrip(s)| - 1])
    ensures s == "" || !IsSpace(s[|s| - 1]) ==> RightStrip(s) == s
    ensures s != "" && IsSpace(s[|s| - 1]) ==> |RightStrip(s)| < |s|
  {
    if s != "" && IsSpace(s[|s| - 1]) { RightStripIs(s[..|s| - 1]); }
  }

  lemma StripStripped(s: string)
    ensures Stripped(Strip(s))
    ensures Stripped(s) ==> Strip(s) == s
  {
    LeftStripIs(s);
    RightStripIs(LeftStrip(s));
  }

  /** The inverse laws of split and join. */
  lemma {:induction false} JoinOfSplit(s: string)
    ensures Join(Split(s)) == s && NoSep(Split(s))
  {
    if s == "" {
    } else {
      JoinOfSplit(s[1..]);
      var rest := Split(s[1..]);
      if s[0] == SEP {
        assert ([""] + rest)[1..] == rest;
        assert s == "" + [SEP] + s[1..];
      } else {
        JoinFirst(s[0], rest);
        assert s == [s[0]] + s[1..];
      }
    }
  }

  lemma JoinFirst(c: char, ws: seq<string>)
    requires ws != []
    ensures Join([[c] + ws[0]] + ws[1..]) == [c] + Join(ws)
  {
    assert ([[c] + ws[0]] + ws[1..])[1..] == ws[1..];
  }

  lemma {:induction false} SplitOfWord(w: string)
    requires SEP !in w
    ensures Split(w) == [w]
  {
    if w == "" {
    } else {
      SplitOfWord(w[1..]);
      assert w == [w[0]] + w[1..];
      assert Split(w[1..])[1..] == [];
    }
  }

  lemma {:induction false} SplitOfPair(w: string, s: string)
    requires SEP !in w
    ensures Split(w + [SEP] + s) == [w] + Split(s)
  {
    var all := w + [SEP] + s;
    if w == "" {
      assert all[1..] == s;
    } else {
      assert all[1..] == w[1..] + [SEP] + s;
      SplitOfPair(w[1..], s);
      var rest := [w[1..]] + Split(s);
      assert rest[1..] == Split(s);
      assert w == [w[0]] + w[1..];
    }
  }

  lemma {:induction false} SplitOfJoin(ws: seq<string>)
    requires ws != [] && NoSep(ws)
    ensures Split(Join(ws)) == ws
  {
    if |ws| == 1 {
      SplitOfWord(ws[0]);
    } else {
      SplitOfPair(ws[0], Join(ws[1..]));
      SplitOfJoin(ws[1..]);
    }
  }

  lemma {:induction false} JoinSnoc(ws: seq<string>, w: string)
    requires ws != []
    ensures Join(ws + [w]) == Join(ws) + [SEP] + w
  {
    if |ws| > 1 {
      assert (ws + [w])[1..] == ws[1..] + [w];
      JoinSnoc(ws[1..], w);
    }
  }

  // ---------------------------------------------------------------- the merge

  /** The incoming words that are not there yet, in order. */
  function Missing(news: seq<string>, olds: seq<string>): (ws: seq<string>)
  {
    if news == [] then []
    else (if news[0] in olds then [] else [news[0]]) + Missing(news[1..], olds)
  }

  function MergedText(elem: string, text: string): string
    requires Strip(text) != ""
  {
    var olds := Strip(elem);
    if olds == "" then Strip(Strip(text))
    else Strip(Join(Split(olds) + Missing(Split(Strip(Strip(text))), Split(olds))))
  }

  /** Blank incoming text changes nothing, not even the whitespace. */
  function Merged(elem: Option<string>, text: string): Option<string> {
    if Strip(text) == "" then elem
    else Some(MergedText(if elem == None then "" else elem.value, text))
  }

  /** Trailing empty words dropped. */
  function Trim(ws: seq<string>): seq<string> {
    if ws != [] && ws[|ws| - 1] == "" then Trim(ws[..|ws| - 1]) else ws
  }

  /** The words the merge appends: those missing, without trailing empty ones. */
  function Added(elem: string, text: string): seq<string> {
    Trim(Missing(Split(Strip(text)), Split(Strip(elem))))
  }

  predicate EndsInSpace(w: string) {
    w != "" && IsSpace(w[|w| - 1])
  }

  /** The last word to append does not end in whitespace of another kind. */
  predicate LastWordClean(ws: seq<string>) {
    ws == [] || !EndsInSpace(ws[|ws| - 1])
  }

  lemma {:induction false} TrimIs(ws: seq<string>)
    ensures Trim(ws) <= ws
    ensures Trim(ws) != [] ==> Trim(ws)[|Trim(ws)| - 1] != ""
    ensures forall w :: w in ws && w != "" ==> w in Trim(ws)
  {
    if ws != [] && ws[|ws| - 1] == "" { TrimIs(ws[..|ws| - 1]); }
  }

  lemma {:induction false} MissingIs(news: seq<string>, olds: seq<string>)
    ensures forall w :: w in Missing(news, olds) <==> w in news && w !in olds
  {
    if news == [] {
    } else {
      MissingIs(news[1..], olds);
    }
  }

  /** Trailing empty words only add trailing separators, which the final strip removes. */
  lemma {:induction false} StripOfJoin(ws: seq<string>, extra: seq<string>)
    requires ws != [] && Join(ws) != "" && !IsSpace(Join(ws)[0])
    ensures Strip(Join(ws + extra)) == RightStrip(Join(ws + Trim(extra)))
  {
    if extra != [] && extra[|extra| - 1] == "" {
      var fewer := extra[..|extra| - 1];
      assert ws + extra == (ws + fewer) + [""];
      JoinSnoc(ws + fewer, "");
      JoinKeepsStart(ws, fewer);
      JoinKeepsStart(ws, extra);
      var s := Join(ws + fewer);
      assert Join(ws + extra) == s + [SEP];
      assert (s + [SEP])[..|s|] == s;
      StripOfJoin(ws, fewer);
    } else {
      JoinKeepsStart(ws, extra);
    }
  }

  lemma {:induction false} JoinKeepsStart(ws: seq<string>, extra: seq<string>)
    requires ws != []
    ensures Join(ws) <= Join(ws + extra)
  {
    if extra == [] {
      assert ws + extra == ws;
    } else {
      var fewer := extra[..|extra| - 1];
      assert ws + extra == (ws + fewer) + [extra[|extra| - 1]];
      JoinSnoc(ws + fewer, extra[|extra| - 1]);
      JoinKeepsStart(ws, fewer);
    }
  }

  /** The text in front of the final strip, without its trailing separators. */
  lemma MergeIsRightStrip(elem: string, text: string)
    requires Strip(text) != "" && Strip(elem) != ""
    ensures MergedText(elem, text) == RightStrip(Join(Split(Strip(elem)) + Added(elem, text)))
    ensures NoSep(Split(Strip(elem)) + Added(elem, text))
    ensures Strip(elem) <= Join(Split(Strip(elem)) + Added(elem, text))
  {
    var olds, news := Split(Strip(elem)), Split(Strip(text));
    StripStripped(elem);
    StripStripped(text);
    JoinOfSplit(Strip(elem));
    JoinOfSplit(Strip(text));
    StripOfJoin(olds, Missing(news, olds));
    MissingIs(news, olds);
    TrimIs(Missing(news, olds));
    JoinKeepsStart(olds, Added(elem, text));
    forall i | 0 <= i < |Added(elem, text)|
      ensures SEP !in Added(elem, text)[i]
    {
      assert Added(elem, text)[i] in Missing(news, olds);
    }
  }

  lemma {:induction false} JoinEnd(ws: seq<string>)
    requires ws != [] && ws[|ws| - 1] != ""
    ensures Join(ws) != "" && Join(ws)[|Join(ws)| - 1] == ws[|ws| - 1][|ws[|ws| - 1]| - 1]
  {
    if |ws| > 1 { JoinEnd(ws[1..]); }
  }

  /** The existing text is kept as it is, at the front, whatever is merged. */
  lemma MergeKeepsText(elem: string, text: string)
    requires Strip(text) != ""
    ensures Strip(elem) <= MergedText(elem, text)
  {
    var olds := Strip(elem);
    if olds != "" {
      MergeIsRightStrip(elem, text);
      StripStripped(elem);
      RightStripKeeps(Join(Split(olds) + Added(elem, text)), olds);
    }
  }

  lemma {:induction false} RightStripKeeps(s: string, front: string)
    requires front <= s && front != "" && !IsSpace(front[|front| - 1])
    ensures front <= RightStrip(s)
  {
    if IsSpace(s[|s| - 1]) {
      assert s != front;
      RightStripKeeps(s[..|s| - 1], front);
    }
  }

  /** The words of the result are the existing words followed by the missing ones, exactly when
      the last word to append does not itself end in whitespace, which the final strip would
      cut off. */
  lemma MergeWordsExactly(elem: string, text: string)
    requires Strip(text) != "" && Strip(elem) != ""
    ensures Split(MergedText(elem, text)) == Split(Strip(elem)) + Added(elem, text)
       <==> LastWordClean(Added(elem, text))
  {
    var olds, added := Split(Strip(elem)), Added(elem, text);
    MergeIsRightStrip(elem, text);
    StripStripped(elem);
    JoinOfSplit(Strip(elem));
    TrimIs(Missing(Split(Strip(text)), olds));
    RightStripWords(olds, added);
  }

  lemma RightStripSame(ws: seq<string>)
    requires ws != [] && NoSep(ws) && Join(ws) != ""
    ensures Split(RightStrip(Join(ws))) == ws <==> !IsSpace(Join(ws)[|Join(ws)| - 1])
  {
    SplitOfJoin(ws);
    RightStripIs(Join(ws));
    JoinOfSplit(RightStrip(Join(ws)));
  }

  /** The final strip leaves the words alone exactly when the last one is clean. */
  lemma RightStripWords(olds: seq<string>, added: seq<string>)
    requires olds != [] && NoSep(olds + added)
    requires Join(olds) != "" && !IsSpace(Join(olds)[|Join(olds)| - 1])
    requires added != [] ==> added[|added| - 1] != ""
    ensures Split(RightStrip(Join(olds + added))) == olds + added <==> LastWordClean(added)
  {
    var ws := olds + added;
    if added == [] {
      assert ws == olds;
    } else {
      assert ws[|ws| - 1] == added[|added| - 1];
      JoinEnd(ws);
    }
    RightStripSame(ws);
  }

  predicate IsWord(w: string, ws: seq<string>) {
    w in ws && w != ""
  }

  /** Exactly the non-empty words of both texts. */
  lemma MergeIsUnion(elem: string, text: string, w: string)
    requires Strip(text) != "" && Strip(elem) != "" && LastWordClean(Added(elem, text))
    ensures IsWord(w, Split(MergedText(elem, text)))
       <==> IsWord(w, Split(Strip(elem))) || IsWord(w, Split(Strip(text)))
  {
    MergeWordsExactly(elem, text);
    var news, olds := Split(Strip(text)), Split(Strip(elem));
    MissingIs(news, olds);
    TrimIs(Missing(news, olds));
  }

  // ---------------------------------------------------------------- merging twice

  predicate Blank(w: string) {
    RightStrip(w) == ""
  }

  /** Trailing words of nothing but whitespace dropped: what the final strip leaves, but for the
      end of the last word. */
  function Core(ws: seq<string>): seq<string> {
    if ws != [] && Blank(ws[|ws| - 1]) then Core(ws[..|ws| - 1]) else ws
  }

  /** The last word survives the final strip, or a copy of it does. */
  predicate Settles(core: seq<string>) {
    LastWordClean(core) || core[|core| - 1] in core[..|core| - 1]
  }

  function Lasting(elem: string, text: string): seq<string> {
    Core(Missing(Split(Strip(text)), Split(Strip(elem))))
  }

  lemma {:induction false} CoreIs(ws: seq<string>)
    ensures Core(ws) <= ws
    ensures Core(ws) != [] ==> !Blank(Core(ws)[|Core(ws)| - 1])
    ensures forall w :: w in ws && !Blank(w) ==> w in Core(ws)
  {
    if ws != [] && Blank(ws[|ws| - 1]) {
      CoreIs(ws[..|ws| - 1]);
      assert ws == ws[..|ws| - 1] + [ws[|ws| - 1]];
    }
  }

  lemma {:induction false} RightStripAppend(s: string, t: string)
    ensures RightStrip(s + t) == if RightStrip(t) == "" then RightStrip(s) else s + RightStrip(t)
  {
    if t == "" {
      assert s + t == s;
    } else if IsSpace(t[|t| - 1]) {
      assert (s + t)[..|s + t| - 1] == s + t[..|t| - 1];
      RightStripAppend(s, t[..|t| - 1]);
    }
  }

  /** The final strip of one more word. */
  lemma StripOfSnoc(ws: seq<string>, w: string)
    requires ws != []
    ensures RightStrip(Join(ws + [w])) == if Blank(w) then RightStrip(Join(ws)) else Join(ws + [RightStrip(w)])
  {
    JoinSnoc(ws, w);
    JoinSnoc(ws, RightStrip(w));
    RightStripAppend(Join(ws) + [SEP], w);
    RightStripAppend(Join(ws), [SEP]);
  }

  lemma {:induction false} StripOfCore(olds: seq<string>, extra: seq<string>)
    requires olds != []
    ensures RightStrip(Join(olds + extra)) == RightStrip(Join(olds + Core(extra)))
  {
    if extra != [] && Blank(extra[|extra| - 1]) {
      var fewer := extra[..|extra| - 1];
      assert olds + extra == (olds + fewer) + [extra[|extra| - 1]];
      StripOfSnoc(olds + fewer, extra[|extra| - 1]);
      StripOfCore(olds, fewer);
    }
  }

  function LastStripped(core: seq<string>): seq<string> {
    if core == [] then [] else core[..|core| - 1] + [RightStrip(core[|core| - 1])]
  }

  lemma StrippedNoSep(olds: seq<string>, extra: seq<string>)
    requires NoSep(olds + extra)
    ensures NoSep(olds) && NoSep(LastStripped(Core(extra)))
  {
    CoreIs(extra);
    forall i | 0 <= i < |olds| + |Core(extra)|
      ensures SEP !in (olds + Core(extra))[i]
    {
      assert (olds + Core(extra))[i] == (olds + extra)[i];
    }
    assert forall i :: 0 <= i < |olds| ==> olds[i] == (olds + Core(extra))[i];
    assert forall i :: 0 <= i < |Core(extra)| ==> Core(extra)[i] == (olds + Core(extra))[|olds| + i];
    if Core(extra) != [] { RightStripIs(Core(extra)[|Core(extra)| - 1]); }
  }

  /** The words after the final strip. */
  lemma StrippedWords(olds: seq<string>, extra: seq<string>)
    requires olds != [] && NoSep(olds + extra)
    requires Join(olds) != "" && !IsSpace(Join(olds)[|Join(olds)| - 1])
    ensures Split(RightStrip(Join(olds + extra))) == olds + LastStripped(Core(extra))
  {
    StripOfCore(olds, extra);
    CoreIs(extra);
    var core := Core(extra);
    var ws := olds + LastStripped(core);
    if core == [] {
      assert olds + core == olds && ws == olds;
      RightStripIs(Join(olds));
    } else {
      var w := core[|core| - 1];
      assert core[|core| - 1] == extra[|core| - 1];
      assert olds + core == (olds + core[..|core| - 1]) + [w];
      assert ws == (olds + core[..|core| - 1]) + [RightStrip(w)];
      StripOfSnoc(olds + core[..|core| - 1], w);
      RightStripIs(w);
    }
    StrippedNoSep(olds, extra);
    SplitOfJoin(ws);
  }

  lemma MergedWords(elem: string, text: string)
    requires Strip(text) != "" && Strip(elem) != ""
    ensures Split(MergedText(elem, text)) == Split(Strip(elem)) + LastStripped(Lasting(elem, text))
  {
    var olds, news := Split(Strip(elem)), Split(Strip(text));
    MergeIsFinalStrip(elem, text);
    StripStripped(elem);
    JoinOfSplit(Strip(elem));
    StrippedWords(olds, Missing(news, olds));
  }

  lemma MergeIsFinalStrip(elem: string, text: string)
    requires Strip(text) != "" && Strip(elem) != ""
    ensures
      var olds := Split(Strip(elem));
      var missing := Missing(Split(Strip(text)), olds);
      MergedText(elem, text) == RightStrip(Join(olds + missing)) && NoSep(olds + missing)
  {
    var olds, news := Split(Strip(elem)), Split(Strip(text));
    StripStripped(elem);
    StripStripped(text);
    JoinOfSplit(Strip(elem));
    JoinOfSplit(Strip(text));
    MissingIs(news, olds);
    JoinKeepsStart(olds, Missing(news, olds));
    forall i | 0 <= i < |Missing(news, olds)|
      ensures SEP !in Missing(news, olds)[i]
    {
      assert Missing(news, olds)[i] in Missing(news, olds);
    }
  }

  /** Nothing but whitespace is still missing exactly if the last word settles. */
  lemma StillMissing(news: seq<string>, olds: seq<string>)
    ensures
      var core := Core(Missing(news, olds));
      Core(Missing(news, olds + LastStripped(core))) == [] <==> Settles(core)
  {
    var core := Core(Missing(news, olds));
    if Settles(core) {
      SettledWords(core);
      forall w | w in Missing(news, olds + LastStripped(core))
        ensures Blank(w)
      {
        NotMissingTwice(news, olds, w);
      }
      NothingLeft(Missing(news, olds + LastStripped(core)));
    } else {
      UnsettledLast(core);
      MissingTwice(news, olds, core[|core| - 1]);
    }
  }

  lemma SettledWords(core: seq<string>)
    requires Settles(core)
    ensures forall w :: w in core ==> w in LastStripped(core)
  {
    if core != [] {
      RightStripIs(core[|core| - 1]);
      assert core == core[..|core| - 1] + [core[|core| - 1]];
    }
  }

  lemma UnsettledLast(core: seq<string>)
    requires !Settles(core)
    ensures core[|core| - 1] in core && core[|core| - 1] !in LastStripped(core)
  {
    RightStripIs(core[|core| - 1]);
  }

  lemma NotMissingTwice(news: seq<string>, olds: seq<string>, w: string)
    requires var core := Core(Missing(news, olds));
             Settles(core) && w in Missing(news, olds + LastStripped(core))
    ensures Blank(w)
  {
    var core := Core(Missing(news, olds));
    SettledWords(core);
    MissingIs(news, olds);
    MissingIs(news, olds + LastStripped(core));
    CoreIs(Missing(news, olds));
  }

  lemma MissingTwice(news: seq<string>, olds: seq<string>, last: string)
    requires var core := Core(Missing(news, olds));
             core != [] && last == core[|core| - 1] && last !in LastStripped(core)
    ensures Core(Missing(news, olds + LastStripped(Core(Missing(news, olds))))) != []
  {
    var core := Core(Missing(news, olds));
    MissingIs(news, olds);
    CoreIs(Missing(news, olds));
    MissingIs(news, olds + LastStripped(core));
    CoreIs(Missing(news, olds + LastStripped(core)));
    assert last in core;
  }

  lemma {:induction false} NothingLeft(ws: seq<string>)
    requires forall i :: 0 <= i < |ws| ==> Blank(ws[i])
    ensures Core(ws) == []
  {
    if ws == [] {
    } else {
      NothingLeft(ws[..|ws| - 1]);
    }
  }

  /** A stripped text is unchanged exactly if nothing but whitespace is missing from it. */
  lemma UnchangedExactly(elem: string, text: string)
    requires Strip(text) != "" && elem != "" && Stripped(elem)
    ensures MergedText(elem, text) == elem <==> Lasting(elem, text) == []
  {
    StripStripped(elem);
    MergedWords(elem, text);
    assert LastStripped(Lasting(elem, text)) == [] <==> Lasting(elem, text) == [];
    SameWords(MergedText(elem, text), elem, LastStripped(Lasting(elem, text)));
  }

  lemma SameWords(s: string, t: string, more: seq<string>)
    requires Split(s) == Split(t) + more
    ensures s == t <==> more == []
  {
    JoinOfSplit(s);
    JoinOfSplit(t);
    assert more == [] ==> Split(t) + more == Split(t);
    assert |Split(s)| == |Split(t)| + |more|;
  }

  // ---------------------------------------------------------------- in order

  predicate AllBlank(s: string) {
    forall i :: 0 <= i < |s| ==> s[i] as int in {9, 10, 11, 12, 13, 28, 29, 30, 31, 32}
  }

  /** A text without the whitespace around it. */
  predicate IsCoreOf(core: string, s: string, left: string, right: string) {
    && s == left + core + right && AllBlank(left) && AllBlank(right)
    && (core == "" || (!AllBlank(core[..1]) && !AllBlank(core[|core| - 1..])))
  }

  lemma {:induction false} LeftStripCuts(s: string) returns (left: string)
    ensures s == left + LeftStrip(s) && AllBlank(left)
  {
    if s != "" && IsSpace(s[0]) {
      left := LeftStripCuts(s[1..]);
      left := [s[0]] + left;
      assert s == [s[0]] + s[1..];
    } else {
      left := "";
    }
  }

  lemma {:induction false} RightStripCuts(s: string) returns (right: string)
    ensures s == RightStrip(s) + right && AllBlank(right)
  {
    if s != "" && IsSpace(s[|s| - 1]) {
      right := RightStripCuts(s[..|s| - 1]);
      right := right + [s[|s| - 1]];
      assert s == s[..|s| - 1] + [s[|s| - 1]];
    } else {
      right := "";
    }
  }

  /** Stripping takes off all whitespace at the ends and nothing else. */
  lemma StripCuts(s: string) returns (left: string, right: string)
    ensures IsCoreOf(Strip(s), s, left, right)
  {
    left := LeftStripCuts(s);
    right := RightStripCuts(LeftStrip(s));
    StripStripped(s);
    assert s == left + Strip(s) + right;
    if Strip(s) != "" { EndsNotBlank(Strip(s)); }
  }

  lemma EndsNotBlank(s: string)
    requires Stripped(s) && s != ""
    ensures !AllBlank(s[..1]) && !AllBlank(s[|s| - 1..])
  {
    assert s[..1] == [s[0]] && s[|s| - 1..] == [s[|s| - 1]];
  }

  lemma {:induction false} MissingPicks(news: seq<string>, olds: seq<string>) returns (at: seq<nat>)
    ensures Picks(news, at, Missing(news, olds))
    ensures forall j: nat :: j < |news| ==> (j in at <==> news[j] !in olds)
  {
    if news == [] {
      at := [];
    } else {
      var rest := MissingPicks(news[1..], olds);
      at := PickHead(news, rest, Missing(news[1..], olds), news[0] !in olds);
      forall j: nat | 0 < j < |news|
        ensures j in at <==> news[j] !in olds
      {
        assert news[j] == news[1..][j - 1] && (j - 1) + 1 in at <==> j - 1 in rest;
      }
    }
  }

  /** The order of the merge: the existing words, then the incoming words that are not among
      them, in incoming order and each as often as it comes; joined and stripped. Without
      existing words it is the incoming text, stripped. */
  lemma MergeAppendsInOrder(elem: string, text: string) returns (at: seq<nat>, words: seq<string>)
    requires Strip(text) != ""
    ensures Picks(Split(Strip(text)), at, words)
    ensures forall j: nat :: j < |Split(Strip(text))| ==>
      (j in at <==> Split(Strip(text))[j] !in Split(Strip(elem)))
    ensures MergedText(elem, text) ==
      if Strip(elem) == "" then Strip(text) else Strip(Join(Split(Strip(elem)) + words))
  {
    StripStripped(text);
    words := Missing(Split(Strip(text)), Split(Strip(elem)));
    at := MissingPicks(Split(Strip(text)), Split(Strip(elem)));
  }

  /** The words of the result, exactly if the last word to append does not end in whitespace:
      the existing ones, then the first n of those, all but trailing empty ones. */
  lemma MergedWordsInOrder(elem: string, text: string) returns (at: seq<nat>, words: seq<string>, n: nat)
    requires Strip(text) != "" && Strip(elem) != ""
    ensures Picks(Split(Strip(text)), at, words)
    ensures forall j: nat :: j < |Split(Strip(text))| ==>
      (j in at <==> Split(Strip(text))[j] !in Split(Strip(elem)))
    ensures n <= |words| && (forall i :: n <= i < |words| ==> words[i] == "") && (n > 0 ==> words[n - 1] != "")
    ensures Split(MergedText(elem, text)) == Split(Strip(elem)) + words[..n] <==>
      n == 0 || !AllBlank(words[n - 1][|words[n - 1]| - 1..])
  {
    words := Missing(Split(Strip(text)), Split(Strip(elem)));
    at := MissingPicks(Split(Strip(text)), Split(Strip(elem)));
    MergeWordsExactly(elem, text);
    n := Trimmed(words);
  }

  lemma Trimmed(ws: seq<string>) returns (n: nat)
    ensures n <= |ws| && Trim(ws) == ws[..n] && (forall i :: n <= i < |ws| ==> ws[i] == "")
    ensures n > 0 ==> ws[n - 1] != ""
    ensures LastWordClean(Trim(ws)) <==> n == 0 || !AllBlank(ws[n - 1][|ws[n - 1]| - 1..])
  {
    TrimIs(ws);
    TrimDropsEmpty(ws);
    n := |Trim(ws)|;
    if n > 0 {
      var w := ws[n - 1];
      assert w == Trim(ws)[n - 1];
      assert w[|w| - 1..] == [w[|w| - 1]];
    }
  }

  lemma {:induction false} TrimDropsEmpty(ws: seq<string>)
    ensures |Trim(ws)| <= |ws| && forall i :: |Trim(ws)| <= i < |ws| ==> ws[i] == ""
  {
    if ws != [] && ws[|ws| - 1] == "" { TrimDropsEmpty(ws[..|ws| - 1]); }
  }

  /** Blank incoming text changes nothing; no text is the empty text. */
  lemma MergedExactly(elem: Option<string>, text: string)
    ensures AllBlank(text) ==> Merged(elem, text) == elem
    ensures !AllBlank(text) ==>
      Strip(text) != "" && Merged(elem, text) == Some(MergedText(if elem == None then "" else elem.value, text))
  {
    var left, right := StripCuts(text);
    if Strip(text) != "" {
      assert text[|left|] == Strip(text)[..1][0];
    }
  }

  // ---------------------------------------------------------------- merging twice, exactly

  /** Merging the same text again changes nothing exactly if the last word to append, trailing
      whitespace words aside, does not itself end in whitespace or is appended twice. */
  lemma MergeIdempotentExactly(elem: string, text: string)
    requires Strip(text) != ""
    ensures MergedText(MergedText(elem, text), text) == MergedText(elem, text)
       <==> Strip(elem) == "" || Settles(Lasting(elem, text))
  {
    var once := MergedText(elem, text);
    MergeStripped(elem, text);
    StripStripped(once);
    UnchangedExactly(once, text);
    if Strip(elem) == "" {
      StripStripped(text);
      NoneMissing(Split(once), Split(once));
    } else {
      MergedWords(elem, text);
      StillMissing(Split(Strip(text)), Split(Strip(elem)));
    }
  }

  lemma {:induction false} NoneMissing(news: seq<string>, olds: seq<string>)
    requires forall i :: 0 <= i < |news| ==> news[i] in olds
    ensures Missing(news, olds) == []
  {
    if news == [] {
    } else {
      NoneMissing(news[1..], olds);
    }
  }

  lemma MergeStripped(elem: string, text: string)
    requires Strip(text) != ""
    ensures Stripped(MergedText(elem, text)) && MergedText(elem, text) != ""
  {
    StripStripped(text);
    StripStripped(Strip(text));
    if Strip(elem) != "" {
      var olds := Split(Strip(elem));
      StripStripped(Join(olds + Missing(Split(Strip(Strip(text))), olds)));
      MergeKeepsText(elem, text);
    }
  }

  /** A text whose only inner whitespace is the separator. */
  predicate SeparatorsOnly(text: string) {
    forall i :: 0 <= i < |Strip(text)| && IsSpace(Strip(text)[i]) ==> Strip(text)[i] == SEP
  }

  /** Such a text is always merged cleanly. */
  lemma SeparatorsOnlyClean(elem: string, text: string)
    requires SeparatorsOnly(text)
    ensures LastWordClean(Added(elem, text)) && Settles(Lasting(elem, text))
  {
    var missing := Missing(Split(Strip(text)), Split(Strip(elem)));
    MissingIs(Split(Strip(text)), Split(Strip(elem)));
    TrimIs(missing);
    CoreIs(missing);
    forall w | w in missing
      ensures !EndsInSpace(w)
    {
      if EndsInSpace(w) { WordInText(Strip(text), w, |w| - 1); }
    }
    var added, core := Added(elem, text), Lasting(elem, text);
    assert added != [] ==> added[|added| - 1] in missing;
    assert core != [] ==> core[|core| - 1] in missing;
  }

  /** Every character of a word is a character of the text, and not the separator. */
  lemma {:induction false} WordInText(s: string, w: string, j: nat)
    requires w in Split(s) && j < |w|
    ensures exists i :: 0 <= i < |s| && s[i] == w[j] && w[j] != SEP
  {
    JoinOfSplit(s);
    var rest := Split(s[1..]);
    if w in rest {
      WordInText(s[1..], w, j);
      var i :| 0 <= i < |s[1..]| && s[1..][i] == w[j];
      assert s[i + 1] == w[j];
    } else {
      assert w == [s[0]] + rest[0];
      if j > 0 {
        WordInText(s[1..], rest[0], j - 1);
        var i :| 0 <= i < |s[1..]| && s[1..][i] == rest[0][j - 1];
        assert s[i + 1] == w[j];
      }
    }
  }

  lemma SplitExamples()
    ensures Split("a\t b") == ["a\t", "b"] && Split("b") == ["b"]
  {
    SplitOfWord("b");
    SplitOfPair("a\t", "b");
    assert "a\t b" == "a\t" + [SEP] + "b";
  }

  /** Such an input: the tab is cut off, so the word is found missing again. */
  lemma UncleanMergeRepeats()
    ensures MergedText(MergedText("b", "a\t b"), "a\t b") != MergedText("b", "a\t b")
  {
    SplitExamples();
    StripStripped("a\t b");
    StripStripped("b");
    assert Missing(["a\t", "b"], ["b"]) == ["a\t"];
    assert Lasting("b", "a\t b") == ["a\t"];
    MergeIdempotentExactly("b", "a\t b");
  }

  // ---------------------------------------------------------------- the element

  class Element {
    var text: Option<string>

    constructor (text: Option<string>)
      ensures this.text == text
    {
      this.text := text;
    }

    method MergeText(incoming: string)
      modifies this
      ensures text == Merged(old(text), incoming)
    {
      var newText := Strip(incoming);
      if newText == "" {
        return;
      }
      var elemText := Strip(if text == None then "" else text.value);
      var merged;
      if elemText != "" {
        var elemWords := Split(elemText);
        var newWords := Split(Strip(newText));
        var toAdd := Missing(newWords, elemWords);
        merged := Join(elemWords + toAdd);
      } else {
        merged := newText;
      }
      text := Some(Strip(merged));
    }
  }
}
