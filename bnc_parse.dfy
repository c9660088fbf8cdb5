/**
 * parse_bnc_xml (context_based/src/parse_bnc_xml.py): flatten the sentences of
 * one corpus file into token records numbered by one running counter.
 * The XML tree is given already parsed: a sequence of `s` elements, each with
 * its attributes and its child elements in document order.
 */
module BncParse {
  import opened Wrappers

  /** A child element of a sentence: its tag, its text (None when absent) and
      its attributes. */
  datatype Element = Element(tag: string, text: Option<string>, attrs: map<string, string>)

  /** An `s` element. */
  datatype Sentence = Sentence(attrs: map<string, string>, children: seq<Element>)

  /** One output record; attribute lookups that find nothing give None. */
  datatype Record = Record(
    xmlId: string, sentenceId: Option<string>, tokenId: int, token: Option<string>,
    pos: Option<string>, headword: Option<string>, c5: Option<string>)

  /** The value of an attribute, or None when the element lacks it. */
  function Get(attrs: map<string, string>, name: string): Option<string>
  {
    if name in attrs then Some(attrs[name]) else None
  }

  predicate Emits(e: Element)
  {
    e.tag == "w" || e.tag == "c"
  }

  /** The children of one sentence that produce records, with the sentence's
      `n` attribute, in child order. */
  function ChildTokens(sid: Option<string>, children: seq<Element>): seq<(Option<string>, Element)>
  {
    if children == [] then []
    else
      var last := children[|children| - 1];
      ChildTokens(sid, children[..|children| - 1]) + (if Emits(last) then [(sid, last)] else [])
  }

  /** All record-producing elements of the file, in sentence order and then
      child order. */
  function Tokens(sentences: seq<Sentence>): seq<(Option<string>, Element)>
  {
    if sentences == [] then []
    else
      var last := sentences[|sentences| - 1];
      Tokens(sentences[..|sentences| - 1]) + ChildTokens(Get(last.attrs, "n"), last.children)
  }

  /** The record of the element `e` of sentence `sid`, numbered `tokenId`. */
  function MakeRecord(xmlId: string, sid: Option<string>, tokenId: int, e: Element): Record
  {
    if e.tag == "w" then
      Record(xmlId, sid, tokenId, e.text, Get(e.attrs, "pos"), Get(e.attrs, "hw"), Get(e.attrs, "c5"))
    else
      Record(xmlId, sid, tokenId, e.text, Some("STOP"), e.text, Get(e.attrs, "c5"))
  }

  /** The k-th record-producing element becomes the record numbered k + 1. */
  function Records(xmlId: string, toks: seq<(Option<string>, Element)>): seq<Record>
  {
    seq(|toks|, k requires 0 <= k < |toks| => MakeRecord(xmlId, toks[k].0, k + 1, toks[k].1))
  }

  lemma {:induction false} RecordsSnoc(xmlId: string, toks: seq<(Option<string>, Element)>, t: (Option<string>, Element))
    ensures Records(xmlId, toks + [t]) == Records(xmlId, toks) + [MakeRecord(xmlId, t.0, |toks| + 1, t.1)]
  {
  }

  lemma {:induction false} ChildTokensStep(sid: Option<string>, children: seq<Element>, j: nat)
    requires j < |children|
    ensures ChildTokens(sid, children[..j + 1]) ==
              ChildTokens(sid, children[..j]) + (if Emits(children[j]) then [(sid, children[j])] else [])
  {
    assert children[..j + 1][..j] == children[..j];
  }

  lemma {:induction false} TokensStep(sentences: seq<Sentence>, i: nat)
    requires i < |sentences|
    ensures Tokens(sentences[..i + 1]) ==
              Tokens(sentences[..i]) + ChildTokens(Get(sentences[i].attrs, "n"), sentences[i].children)
  {
    assert sentences[..i + 1][..i] == sentences[..i];
  }

  /** The inner loop of parse_bnc_xml over the children of one sentence:
      each `w` or `c` child appends one record numbered by the running
      counter `i`, which moves on by one. */
  method ParseSentence(xmlId: string, data: seq<Record>, i: int, sentenceId: Option<string>,
                       children: seq<Element>, ghost before: seq<(Option<string>, Element)>)
    returns (data': seq<Record>, i': int)
    requires data == Records(xmlId, before) && i == |data| + 1
    ensures data' == Records(xmlId, before + ChildTokens(sentenceId, children))
    ensures i' == |data'| + 1
  {
    data', i' := data, i;
    var ci := 0;
    assert before + ChildTokens(sentenceId, children[..0]) == before;
    while ci < |children|
      invariant 0 <= ci <= |children|
      invariant data' == Records(xmlId, before + ChildTokens(sentenceId, children[..ci]))
      invariant i' == |data'| + 1
    {
      var element := children[ci];
      ghost var toks := before + ChildTokens(sentenceId, children[..ci]);
      ChildTokensStep(sentenceId, children, ci);
      if element.tag == "w" {
        data' := data' + [Record(xmlId, sentenceId, i', element.text,
                                 Get(element.attrs, "pos"), Get(element.attrs, "hw"), Get(element.attrs, "c5"))];
        i' := i' + 1;
        RecordsSnoc(xmlId, toks, (sentenceId, element));
        assert toks + [(sentenceId, element)] == before + ChildTokens(sentenceId, children[..ci + 1]);
      } else if element.tag == "c" {
        data' := data' + [Record(xmlId, sentenceId, i', element.text, Some("STOP"), element.text, Get(element.attrs, "c5"))];
        i' := i' + 1;
        RecordsSnoc(xmlId, toks, (sentenceId, element));
        assert toks + [(sentenceId, element)] == before + ChildTokens(sentenceId, children[..ci + 1]);
      } else {
        assert toks == before + ChildTokens(sentenceId, children[..ci + 1]);
      }
      ci := ci + 1;
    }
    assert children[..ci] == children;
  }

  /** parse_bnc_xml on a parsed file; `xmlId` is the file's base name
      without extension. */
  method ParseBncXml(xmlId: string, sentences: seq<Sentence>) returns (data: seq<Record>)
    ensures data == Records(xmlId, Tokens(sentences))
    ensures forall k :: 0 <= k < |data| ==> data[k].tokenId == k + 1 && data[k].xmlId == xmlId
  {
    data := [];
    var i := 1;
    var si := 0;
    while si < |sentences|
      invariant 0 <= si <= |sentences|
      invariant data == Records(xmlId, Tokens(sentences[..si]))
      invariant i == |data| + 1
    {
      var s := sentences[si];
      var sentenceId := Get(s.attrs, "n");
      data, i := ParseSentence(xmlId, data, i, sentenceId, s.children, Tokens(sentences[..si]));
      TokensStep(sentences, si);
      si := si + 1;
    }
    assert sentences[..si] == sentences;
  }

  /** Only `w` and `c` children produce records: each record-producing element
      is such a child of some sentence, carrying that sentence's `n`, and each
      such child produces one. */
  lemma {:induction false} TokensAreWordsAndPunctuation(sentences: seq<Sentence>, sid: Option<string>, e: Element)
    ensures (sid, e) in Tokens(sentences) <==>
              exists s :: s in sentences && e in s.children && Emits(e) && sid == Get(s.attrs, "n")
  {
    if sentences != [] {
      var n := |sentences| - 1;
      TokensAreWordsAndPunctuation(sentences[..n], sid, e);
      ChildTokensMember(Get(sentences[n].attrs, "n"), sentences[n].children, sid, e);
      assert sentences == sentences[..n] + [sentences[n]];
    }
  }

  lemma {:induction false} ChildTokensMember(n: Option<string>, children: seq<Element>, sid: Option<string>, e: Element)
    ensures (sid, e) in ChildTokens(n, children) <==> e in children && Emits(e) && sid == n
  {
    if children != [] {
      var init := children[..|children| - 1];
      ChildTokensMember(n, init, sid, e);
      assert children == init + [children[|children| - 1]];
    }
  }

  /** Sentences contribute their records in sentence order: the records of a
      file are those of its first part followed by those of the rest. */
  lemma {:induction false} TokensAppend(s1: seq<Sentence>, s2: seq<Sentence>)
    ensures Tokens(s1 + s2) == Tokens(s1) + Tokens(s2)
  {
    if s2 != [] {
      var n := |s2| - 1;
      TokensAppend(s1, s2[..n]);
      assert (s1 + s2)[..|s1 + s2| - 1] == s1 + s2[..n];
    } else {
      assert s1 + s2 == s1;
    }
  }

  /** Children contribute their records in child order. */
  lemma {:induction false} ChildTokensAppend(sid: Option<string>, c1: seq<Element>, c2: seq<Element>)
    ensures ChildTokens(sid, c1 + c2) == ChildTokens(sid, c1) + ChildTokens(sid, c2)
  {
    if c2 != [] {
      var n := |c2| - 1;
      ChildTokensAppend(sid, c1, c2[..n]);
      assert (c1 + c2)[..|c1 + c2| - 1] == c1 + c2[..n];
    } else {
      assert c1 + c2 == c1;
    }
  }

  /** The counter is not reset between sentences: the records of the second
      part of a file are numbered on from those of the first. */
  lemma {:induction false} CounterRunsAcrossSentences(xmlId: string, s1: seq<Sentence>, s2: seq<Sentence>, k: nat)
    requires k < |Tokens(s2)|
    ensures |Records(xmlId, Tokens(s1 + s2))| == |Tokens(s1)| + |Tokens(s2)|
    ensures Records(xmlId, Tokens(s1 + s2))[|Tokens(s1)| + k] ==
              MakeRecord(xmlId, Tokens(s2)[k].0, |Tokens(s1)| + k + 1, Tokens(s2)[k].1)
  {
    var t1, t2 := Tokens(s1), Tokens(s2);
    TokensAppend(s1, s2);
    RecordsAt(xmlId, t1 + t2, |t1| + k);
    assert (t1 + t2)[|t1| + k] == t2[k];
  }

  lemma {:induction false} RecordsAt(xmlId: string, toks: seq<(Option<string>, Element)>, k: nat)
    requires k < |toks|
    ensures |Records(xmlId, toks)| == |toks|
    ensures Records(xmlId, toks)[k] == MakeRecord(xmlId, toks[k].0, k + 1, toks[k].1)
  {
  }

  /** What each record holds: a `c` record is POS "STOP" with its text as
      lemma; a `w` record takes POS, lemma and c5 from the pos, hw and c5
      attributes; both carry the element text as Token. */
  lemma {:induction false} RecordFields(xmlId: string, sid: Option<string>, tokenId: int, e: Element)
    requires Emits(e)
    ensures var r := MakeRecord(xmlId, sid, tokenId, e);
            && r.xmlId == xmlId && r.sentenceId == sid && r.tokenId == tokenId && r.token == e.text
            && (e.tag == "c" ==> r.pos == Some("STOP") && r.headword == r.token && r.c5 == Get(e.attrs, "c5"))
            && (e.tag == "w" ==> r.pos == Get(e.attrs, "pos") && r.headword == Get(e.attrs, "hw")
                                 && r.c5 == Get(e.attrs, "c5"))
  {
  }
}
