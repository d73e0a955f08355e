/**
 The messages the tasks of lib/taskFactory/SocialGamingTaskFactory.cpp queue for the players: a
 map from strings to strings, lists spread over numbered keys, and the addressees joined by
 commas.  Nothing of what was put in must get lost.
 */
module TaskMessages {
  import opened Wrappers
  import opened Values
  import opened Printing

  // -------------------------------------------------------------------- addressees

  /** copyVec<int>: the integers of a list of variables. */
  function CopyInts(vec: seq<Value>): (r: seq<int>)
    ensures |r| <= |vec|
  {
    if vec == [] then [] else (if vec[0].Int? then [vec[0].i] else []) + CopyInts(vec[1..])
  }

  /** Copying keeps every element exactly when all are integers. */
  lemma {:induction false} CopyIntsKeepsAll(vec: seq<Value>)
    ensures |CopyInts(vec)| == |vec| <==> forall i :: 0 <= i < |vec| ==> vec[i].Int?
    ensures |CopyInts(vec)| == |vec| ==> forall i :: 0 <= i < |vec| ==> vec[i] == Int(CopyInts(vec)[i])
  {
    if vec != [] {
      CopyIntsKeepsAll(vec[1..]);
      assert forall i :: 1 <= i < |vec| ==> vec[i] == vec[1..][i - 1];
      if vec[0].Int? {
        assert forall i :: 0 <= i < |vec[1..]| ==> vec[1..][i] == vec[i + 1];
      }
    }
  }

  /** Whatever its neighbours are, an integer is copied to its place among the others and anything else is left out. */
  lemma {:induction false} CopyIntsAppend(a: seq<Value>, b: seq<Value>)
    ensures CopyInts(a + b) == CopyInts(a) + CopyInts(b)
    ensures forall n :: CopyInts([Int(n)]) == [n]
    ensures forall v: Value :: !v.Int? ==> CopyInts([v]) == []
  {
    if a == [] {
      assert a + b == b;
    } else {
      var head := if a[0].Int? then [a[0].i] else [];
      assert (a + b)[0] == a[0] && (a + b)[1..] == a[1..] + b;
      CopyIntsAppend(a[1..], b);
      assert head + CopyInts(a[1..]) + CopyInts(b) == head + (CopyInts(a[1..]) + CopyInts(b));
    }
  }

  /** The texts with a comma before each. */
  function CommaEach(texts: seq<string>): string {
    if texts == [] then "" else CommaEach(texts[..|texts| - 1]) + ("," + texts[|texts| - 1])
  }

  lemma {:induction false} CommaEachCons(texts: seq<string>)
    requires texts != []
    ensures CommaEach(texts) == ("," + texts[0]) + CommaEach(texts[1..])
  {
    var front, last := texts[..|texts| - 1], "," + texts[|texts| - 1];
    if |texts| == 1 {
      assert front == [] && texts[1..] == [];
    } else {
      CommaEachCons(front);
      assert texts[1..][..|texts| - 2] == front[1..];
      assert CommaEach(texts[1..]) == CommaEach(front[1..]) + last;
    }
  }

  lemma {:induction false} CommaFirst(texts: seq<string>)
    ensures CommaEach(texts) == [] || CommaEach(texts)[0] == ','
    ensures CommaEach(texts) == [] <==> texts == []
  {
    if texts != [] {
      CommaEachCons(texts);
    }
  }

  /** Text up to the first comma. */
  function UpToComma(s: string): (head: string)
    ensures head <= s && (|head| == |s| || s[|head|] == ',')
  {
    if s == [] || s[0] == ',' then [] else [s[0]] + UpToComma(s[1..])
  }

  lemma {:induction false} UpToCommaExact(t: string, rest: string)
    requires ',' !in t && (rest == [] || rest[0] == ',')
    ensures UpToComma(t + rest) == t
  {
    if t == [] {
      assert t + rest == rest;
    } else {
      assert (t + rest)[1..] == t[1..] + rest;
      UpToCommaExact(t[1..], rest);
    }
  }

  /** Two texts without commas, each followed by a comma or nothing. */
  lemma {:induction false} SameHead(t: string, restT: string, u: string, restU: string)
    requires ',' !in t && ',' !in u && t + restT == u + restU
    requires restT == [] || restT[0] == ','
    requires restU == [] || restU[0] == ','
    ensures t == u && restT == restU
  {
    UpToCommaExact(t, restT);
    UpToCommaExact(u, restU);
    assert restT == (t + restT)[|t|..] && restU == (u + restU)[|u|..];
  }

  /** Texts without commas can be split again. */
  lemma {:induction false} CommaEachInjective(a: seq<string>, b: seq<string>)
    requires forall i :: 0 <= i < |a| ==> ',' !in a[i]
    requires forall i :: 0 <= i < |b| ==> ',' !in b[i]
    requires CommaEach(a) == CommaEach(b)
    ensures a == b
  {
    CommaFirst(a);
    CommaFirst(b);
    if a != [] {
      CommaEachCons(a);
      CommaEachCons(b);
      var restA, restB := CommaEach(a[1..]), CommaEach(b[1..]);
      assert CommaEach(a)[1..] == a[0] + restA;
      assert CommaEach(b)[1..] == b[0] + restB;
      CommaFirst(a[1..]);
      CommaFirst(b[1..]);
      SameHead(a[0], restA, b[0], restB);
      CommaEachInjective(a[1..], b[1..]);
    }
  }

  /** What a receiver does with the joined ids. */
  function Split(s: string): seq<string> {
    var head := UpToComma(s);
    if |head| == |s| then [head] else [head] + Split(s[|head| + 1..])
  }

  /** Splitting undoes joining. */
  lemma {:induction false} SplitJoined(texts: seq<string>, joined: string)
    requires texts != [] && forall i :: 0 <= i < |texts| ==> ',' !in texts[i]
    requires "," + joined == CommaEach(texts)
    ensures Split(joined) == texts
    decreases texts
  {
    CommaEachCons(texts);
    var rest := CommaEach(texts[1..]);
    assert joined == ("," + joined)[1..] == texts[0] + rest;
    CommaFirst(texts[1..]);
    UpToCommaExact(texts[0], rest);
    if rest != [] {
      assert rest == "," + rest[1..];
      assert joined[|texts[0]| + 1..] == rest[1..];
      SplitJoined(texts[1..], rest[1..]);
    }
  }

  function Texts(ids: seq<int>): (r: seq<string>)
    ensures |r| == |ids| && forall i :: 0 <= i < |r| ==> r[i] == IntText(ids[i]) && ',' !in r[i]
  {
    seq(|ids|, i requires 0 <= i < |ids| => IntText(ids[i]))
  }

  /** The addressees of a message, as the tasks write them; C++ has no first comma to erase in an empty text. */
  method JoinIds(playerList: seq<int>) returns (ids: string)
    requires playerList != []
    ensures "," + ids == CommaEach(Texts(playerList)) && Split(ids) == Texts(playerList)
  {
    ids := "";
    for i := 0 to |playerList|
      invariant ids == CommaEach(Texts(playerList[..i]))
    {
      ids := ids + ("," + IntText(playerList[i]));
      assert Texts(playerList[..i + 1])[..i] == Texts(playerList[..i]);
    }
    assert playerList[..|playerList|] == playerList;
    CommaEachCons(Texts(playerList));
    ids := ids[1..];
    SplitJoined(Texts(playerList), ids);
  }

  /** The joined ids of a message determine its player list. */
  lemma {:induction false} JoinedIdsInjective(a: seq<int>, b: seq<int>)
    requires CommaEach(Texts(a)) == CommaEach(Texts(b))
    ensures a == b
  {
    CommaEachInjective(Texts(a), Texts(b));
    forall i | 0 <= i < |a|
      ensures a[i] == b[i]
    {
      assert Texts(a)[i] == Texts(b)[i];
      IntTextInjective(a[i], b[i]);
    }
  }

  // -------------------------------------------------------------------- numbered keys

  type Msg = map<string, string>

  function Key(prefix: string, i: nat): string { prefix + NatText(i) }

  /** The key is the prefix and the decimal number, counted from 0. */
  lemma {:induction false} KeyNumber(prefix: string, i: nat)
    ensures prefix <= Key(prefix, i) && Key(prefix, i)[|prefix|..] == NatText(i)
    ensures NatValue(NatText(i)) == i && Key(prefix, 0) == prefix + "0"
  {
    NatTextValue(i);
    assert NatText(0) == [Digit(0)] == "0";
  }

  lemma {:induction false} KeysDiffer(prefix: string, i: nat, j: nat)
    requires Key(prefix, i) == Key(prefix, j)
    ensures i == j
  {
    NatTextValue(i);
    NatTextValue(j);
    assert Key(prefix, i)[|prefix|..] == NatText(i) && Key(prefix, j)[|prefix|..] == NatText(j);
  }

  /** A key is one of the first `n` numbered keys. */
  ghost predicate IsKey(k: string, prefix: string, n: nat) { exists i :: 0 <= i < n && k == Key(prefix, i) }

  /** Under the numbered keys the message holds just this list. */
  ghost predicate Holds(msg: Msg, prefix: string, list: seq<string>) {
    && (forall i :: 0 <= i < |list| ==> Key(prefix, i) in msg && msg[Key(prefix, i)] == list[i])
    && Key(prefix, |list|) !in msg
  }

  lemma {:induction false} HoldsOnce(msg: Msg, prefix: string, a: seq<string>, b: seq<string>)
    requires Holds(msg, prefix, a) && Holds(msg, prefix, b)
    ensures a == b
  {
    assert |a| == |b|;
    assert forall i :: 0 <= i < |a| ==> msg[Key(prefix, i)] == a[i];
  }

  lemma {:induction false} IsKeyStep(k: string, prefix: string, n: nat)
    ensures IsKey(k, prefix, n + 1) <==> IsKey(k, prefix, n) || k == Key(prefix, n)
  {
  }

  /** Add a list under numbered keys, whose texts start with none of the keys already there. */
  method AddNumbered(msg0: Msg, prefix: string, list: seq<string>) returns (msg: Msg)
    requires forall i :: i >= 0 ==> Key(prefix, i) !in msg0
    ensures Holds(msg, prefix, list)
    ensures forall k :: k in msg <==> k in msg0 || IsKey(k, prefix, |list|)
    ensures forall k :: k in msg0 ==> msg[k] == msg0[k]
  {
    msg := msg0;
    for i := 0 to |list|
      invariant forall j :: 0 <= j < i ==> Key(prefix, j) in msg && msg[Key(prefix, j)] == list[j]
      invariant forall k :: k in msg <==> k in msg0 || IsKey(k, prefix, i)
      invariant forall k :: k in msg0 ==> k in msg && msg[k] == msg0[k]
    {
      ghost var before := msg;
      var key := Key(prefix, i);
      msg := msg[key := list[i]];
      forall j | 0 <= j < i
        ensures Key(prefix, j) != key
      {
        if Key(prefix, j) == key { KeysDiffer(prefix, j, i); }
      }
      forall k
        ensures k in msg <==> k in msg0 || IsKey(k, prefix, i + 1)
      {
        assert k in msg <==> k in before || k == key;
        IsKeyStep(k, prefix, i);
      }
    }
    if Key(prefix, |list|) in msg {
      var j :| 0 <= j < |list| && Key(prefix, |list|) == Key(prefix, j);
      KeysDiffer(prefix, |list|, j);
    }
  }

  // -------------------------------------------------------------------- the messages

  const SCORE_KEYS := {"type", "attr", "count"}

  ghost predicate OnlyScoreKeys(msg: Msg, n: nat, m: nat) {
    forall k :: k in msg ==> k in SCORE_KEYS || IsKey(k, "name", n) || IsKey(k, "score", m)
  }

  /** The message of a ScoresTask: attribute, number of names, names and printed scores. */
  ghost predicate IsScores(msg: Msg, attr: string, names: seq<string>, scores: seq<string>) {
    && "type" in msg && msg["type"] == "scores" && "attr" in msg && msg["attr"] == attr
    && "count" in msg && msg["count"] == NatText(|names|)
    && Holds(msg, "name", names) && Holds(msg, "score", scores)
    && OnlyScoreKeys(msg, |names|, |scores|)
  }

  /** Numbered names and scores never share a key. */
  lemma {:induction false} NamesAreNotScores(i: nat, n: nat)
    ensures !IsKey(Key("score", i), "name", n) && !IsKey(Key("name", i), "score", n)
  {
    assert Key("score", i)[0] == 's' && Key("name", i)[0] == 'n';
    assert forall j: nat :: Key("score", j)[0] == 's' && Key("name", j)[0] == 'n';
  }

  lemma {:induction false} FixedKeysFree(fixed: Msg)
    requires fixed.Keys <= SCORE_KEYS
    ensures forall i: nat :: Key("name", i) !in fixed && Key("score", i) !in fixed
  {
    forall i: nat
      ensures Key("name", i) !in fixed && Key("score", i) !in fixed
    {
      assert Key("name", i)[0] == 'n' && Key("score", i)[0] == 's';
    }
  }

  lemma {:induction false} ScoreKeysFree(fixed: Msg, named: Msg, n: nat)
    requires fixed.Keys <= SCORE_KEYS
    requires forall k :: k in named <==> k in fixed || IsKey(k, "name", n)
    ensures forall i: nat :: Key("score", i) !in named
  {
    FixedKeysFree(fixed);
    forall i: nat
      ensures Key("score", i) !in named
    {
      NamesAreNotScores(i, n);
    }
  }

  function PrintedAll(scores: seq<Printable>): (texts: seq<string>)
    ensures |texts| == |scores| && forall i :: 0 <= i < |scores| ==> texts[i] == Printed(scores[i])
  {
    seq(|scores|, i requires 0 <= i < |scores| => Printed(scores[i]))
  }

  /** Print each score to a stream of its own. */
  method PrintScores(scores: seq<Printable>) returns (texts: seq<string>)
    ensures texts == PrintedAll(scores)
  {
    texts := [];
    for i := 0 to |scores|
      invariant |texts| == i && forall j :: 0 <= j < i ==> texts[j] == Printed(scores[j])
    {
      var stream := new Stream();
      stream.PrintValue(scores[i], "");
      texts := texts + [stream.text];
    }
  }

  method ScoresMessage(attr: string, names: seq<string>, scores: seq<Printable>) returns (msg: Msg)
    ensures IsScores(msg, attr, names, PrintedAll(scores))
  {
    var texts := PrintScores(scores);
    var fixed := map["type" := "scores", "attr" := attr, "count" := NatText(|names|)];
    FixedKeysFree(fixed);
    var named := AddNumbered(fixed, "name", names);
    ScoreKeysFree(fixed, named, |names|);
    msg := AddNumbered(named, "score", texts);
    NamesStillHeld(fixed, named, msg, names, texts);
  }

  lemma {:induction false} NamesStillHeld(fixed: Msg, named: Msg, msg: Msg, names: seq<string>, scores: seq<string>)
    requires fixed.Keys <= SCORE_KEYS && Holds(named, "name", names)
    requires forall k :: k in named <==> k in fixed || IsKey(k, "name", |names|)
    requires forall k :: k in msg <==> k in named || IsKey(k, "score", |scores|)
    requires forall k :: k in named ==> msg[k] == named[k]
    ensures Holds(msg, "name", names) && OnlyScoreKeys(msg, |names|, |scores|)
  {
    NamesAreNotScores(|names|, |scores|);
    HoldsStill(named, msg, "name", names);
    AllKeysKnown(fixed, named, msg, |names|, |scores|);
  }

  lemma {:induction false} HoldsStill(before: Msg, msg: Msg, prefix: string, list: seq<string>)
    requires Holds(before, prefix, list) && Key(prefix, |list|) !in msg
    requires forall k :: k in before ==> k in msg && msg[k] == before[k]
    ensures Holds(msg, prefix, list)
  {
  }

  lemma {:induction false} AllKeysKnown(fixed: Msg, named: Msg, msg: Msg, n: nat, m: nat)
    requires fixed.Keys <= SCORE_KEYS
    requires forall k :: k in named <==> k in fixed || IsKey(k, "name", n)
    requires forall k :: k in msg <==> k in named || IsKey(k, "score", m)
    ensures OnlyScoreKeys(msg, n, m)
  {
  }

  /** Attribute, names and the texts of the scores can be told from the message of a ScoresTask. */
  lemma {:induction false} ScoreTextsRecoverable(msg: Msg, attr: string, names: seq<string>, texts: seq<string>,
                                                 attr': string, names': seq<string>, texts': seq<string>)
    requires IsScores(msg, attr, names, texts) && IsScores(msg, attr', names', texts')
    ensures attr == attr' && names == names' && texts == texts'
  {
    HoldsOnce(msg, "name", names, names');
    HoldsOnce(msg, "score", texts, texts');
  }

  /** So can the scores themselves, whatever their types, if those are known and are no lists. */
  lemma {:induction false} ScoresRecoverable(msg: Msg, attr: string, names: seq<string>, scores: seq<Printable>,
                                             attr': string, names': seq<string>, scores': seq<Printable>)
    requires IsScores(msg, attr, names, PrintedAll(scores)) && IsScores(msg, attr', names', PrintedAll(scores'))
    requires forall i :: 0 <= i < |scores| && i < |scores'| ==> SameType(scores[i], scores'[i])
    ensures attr == attr' && names == names' && scores == scores'
  {
    ScoreTextsRecoverable(msg, attr, names, PrintedAll(scores), attr', names', PrintedAll(scores'));
    forall i | 0 <= i < |scores|
      ensures scores[i] == scores'[i]
    {
      assert PrintedAll(scores)[i] == PrintedAll(scores')[i];
      ToldWithinType(scores[i], scores'[i]);
    }
  }

  predicate AllProper(scores: seq<Printable>) { forall i :: 0 <= i < |scores| ==> Proper(scores[i]) }

  /** Without knowing their types, the scores can be told exactly if each is a text that nothing else prints as. */
  lemma {:induction false} ScoresRecoverableIff(msg: Msg, attr: string, names: seq<string>, scores: seq<Printable>)
    requires IsScores(msg, attr, names, PrintedAll(scores)) && AllProper(scores)
    ensures (forall scores' :: AllProper(scores') && IsScores(msg, attr, names, PrintedAll(scores')) ==> scores' == scores)
            <==> forall i :: 0 <= i < |scores| ==> Distinctive(scores[i])
  {
    if k :| 0 <= k < |scores| && !Distinctive(scores[k]) {
      var w := Disguise(scores[k]);
      var other := scores[k := w];
      assert PrintedAll(other) == PrintedAll(scores);
      assert AllProper(other) && other[k] != scores[k];
    } else {
      forall scores' | AllProper(scores') && IsScores(msg, attr, names, PrintedAll(scores'))
        ensures scores' == scores
      {
        ScoreTextsRecoverable(msg, attr, names, PrintedAll(scores), attr, names, PrintedAll(scores'));
        forall i | 0 <= i < |scores|
          ensures scores'[i] == scores[i]
        {
          assert PrintedAll(scores)[i] == PrintedAll(scores')[i];
          DistinctiveIsOnly(scores[i], scores'[i]);
        }
      }
    }
  }

  /** The range an InputTask sends: none when either bound is -1, which is how it marks no range. */
  function SentRange(start: int, end: int): Option<(int, int)> {
    if start == -1 || end == -1 then None else Some((start, end))
  }

  const INPUT_KEYS := {"prompt", "type", "rangeStart", "rangeEnd", "choiceListSize"}

  /** The message of an InputTask: prompt, type, a range and choices. */
  ghost predicate IsInput(msg: Msg, prompt: string, kind: string, start: int, end: int, choices: seq<string>) {
    && "prompt" in msg && msg["prompt"] == prompt && "type" in msg && msg["type"] == kind
    && (match SentRange(start, end)
        case None => "rangeStart" !in msg && "rangeEnd" !in msg
        case Some((a, b)) =>
          "rangeStart" in msg && msg["rangeStart"] == IntText(a) && "rangeEnd" in msg && msg["rangeEnd"] == IntText(b))
    && (if choices == [] then "choiceListSize" !in msg
        else "choiceListSize" in msg && msg["choiceListSize"] == NatText(|choices|))
    && Holds(msg, "", choices) && OnlyInputKeys(msg, |choices|)
  }

  ghost predicate OnlyInputKeys(msg: Msg, n: nat) {
    forall k :: k in msg ==> k in INPUT_KEYS || IsKey(k, "", n)
  }

  method InputMessage(prompt: string, kind: string, start: int, end: int, choices: seq<string>) returns (msg: Msg)
    ensures IsInput(msg, prompt, kind, start, end, choices)
  {
    var fixed := map["prompt" := prompt, "type" := kind];
    if start != -1 && end != -1 {
      fixed := fixed["rangeStart" := IntText(start)]["rangeEnd" := IntText(end)];
    }
    if |choices| > 0 {
      fixed := fixed["choiceListSize" := NatText(|choices|)];
    }
    NumbersFree(fixed);
    msg := AddNumbered(fixed, "", choices);
    InputKeys(fixed, msg, |choices|);
  }

  lemma {:induction false} NumbersFree(fixed: Msg)
    requires fixed.Keys <= INPUT_KEYS
    ensures forall i: nat :: Key("", i) !in fixed
  {
    forall i: nat
      ensures Key("", i) !in INPUT_KEYS
    {
      assert Key("", i) == NatText(i) && IsDigit(NatText(i)[0]);
    }
  }

  lemma {:induction false} InputKeys(fixed: Msg, msg: Msg, n: nat)
    requires fixed.Keys <= INPUT_KEYS
    requires forall k :: k in msg <==> k in fixed || IsKey(k, "", n)
    ensures OnlyInputKeys(msg, n)
    ensures forall k :: k in INPUT_KEYS && k in msg ==> k in fixed
  {
    assert forall j: nat :: Key("", j) == NatText(j) && IsDigit(NatText(j)[0]);
  }

  /** Prompt, type and choices can be told from the message, and the range as far as it is sent. */
  lemma {:induction false} InputRecoverable(msg: Msg, prompt: string, kind: string, start: int, end: int, choices: seq<string>,
                                            prompt': string, kind': string, start': int, end': int, choices': seq<string>)
    requires IsInput(msg, prompt, kind, start, end, choices) && IsInput(msg, prompt', kind', start', end', choices')
    ensures prompt == prompt' && kind == kind' && choices == choices'
    ensures SentRange(start, end) == SentRange(start', end')
  {
    HoldsOnce(msg, "", choices, choices');
    if SentRange(start, end).Some? {
      IntTextInjective(start, start');
      IntTextInjective(end, end');
    }
  }

  /** A range comes through exactly when neither bound is -1. */
  lemma {:induction false} RangeRecoverableIff(msg: Msg, prompt: string, kind: string, start: int, end: int, choices: seq<string>)
    requires IsInput(msg, prompt, kind, start, end, choices)
    ensures (forall a, b :: IsInput(msg, prompt, kind, a, b, choices) ==> a == start && b == end)
            <==> start != -1 && end != -1
  {
    forall a, b | IsInput(msg, prompt, kind, a, b, choices)
      ensures SentRange(a, b) == SentRange(start, end)
    {
      InputRecoverable(msg, prompt, kind, start, end, choices, prompt, kind, a, b, choices);
    }
    if start == -1 || end == -1 {
      assert IsInput(msg, prompt, kind, -1, 0, choices) && IsInput(msg, prompt, kind, -1, 1, choices);
    }
  }
}
