/** The distress keyword spotter of engines/voice_ai/inference/speech_recognizer.py:
    a transcription is lower-cased and every distress phrase that occurs in it
    is reported, with an emergency flag that is set when any phrase occurred.
    Recording and Whisper are not part of this model; the raw transcription
    and the elapsed time are parameters. */
module Distress {
  import opened Numeric
  import opened Text

  /** The `distress_keywords` list; two entries use the typographic apostrophe U+2019. */
  const DistressKeywords: seq<string> := [
    "help", "help me", "please help", "save me", "someone help", "stop", "leave me",
    "leave me alone", "go away", "don\U{2019}t follow me", "stop following me",
    "i\U{2019}m in danger", "i need help", "call police", "call the police",
    "police please", "emergency"]

  ghost predicate Distinct(s: seq<string>)
  {
    forall i, j :: 0 <= i < j < |s| ==> s[i] != s[j]
  }

  /** Position of `k` in `ks`. */
  function Rank(ks: seq<string>, k: string): (n: nat)
    requires k in ks
    ensures n < |ks| && ks[n] == k
  {
    if ks[0] == k then 0 else 1 + Rank(ks[1..], k)
  }

  /** `[k for k in keywords if k in text]` */
  function Matching(keywords: seq<string>, text: string): seq<string>
  {
    if keywords == [] then []
    else (if Contains(text, keywords[0]) then [keywords[0]] else []) + Matching(keywords[1..], text)
  }

  /** The pair `detect_emergency` returns. */
  datatype Detection = Detection(keywords: seq<string>, emergency: bool)

  /** `detect_emergency` */
  function DetectEmergency(text: string): (d: Detection)
    ensures d.emergency <==> |d.keywords| > 0
  {
    var detected := Matching(DistressKeywords, text);
    Detection(detected, |detected| > 0)
  }

  /** `transcribe` lower-cases Whisper's text before detection. */
  function Analyze(rawText: string): Detection
  {
    DetectEmergency(Lower(rawText))
  }

  /** The dictionary `run_once` returns. */
  datatype RunResult = RunResult(transcription: string, emergency: bool, keywords: seq<string>, latencySec: real)

  /** `run_once`, given Whisper's raw text and the elapsed seconds. */
  function RunOnce(rawText: string, elapsedSec: real): (r: RunResult)
    ensures r.transcription == Lower(rawText)
    ensures r.keywords == Analyze(rawText).keywords
    ensures r.emergency <==> |r.keywords| > 0
    ensures -0.005 <= r.latencySec - elapsedSec <= 0.005
  {
    var text := Lower(rawText);
    var d := DetectEmergency(text);
    RoundToError(elapsedSec, 2);
    RunResult(text, d.emergency, d.keywords, RoundTo(elapsedSec, 2))
  }

  // ----- Properties -----

  /** The detected phrases are exactly the listed phrases that occur in the text. */
  lemma {:induction false} MatchingMembers(keywords: seq<string>, text: string, k: string)
    ensures k in Matching(keywords, text) <==> k in keywords && Contains(text, k)
  {
    if keywords != [] {
      MatchingMembers(keywords[1..], text, k);
      assert keywords == [keywords[0]] + keywords[1..];
    }
  }

  lemma DistinctTail(ks: seq<string>)
    requires Distinct(ks) && ks != []
    ensures Distinct(ks[1..])
  {
    forall i, j | 0 <= i < j < |ks[1..]| ensures ks[1..][i] != ks[1..][j] {
      assert ks[1..][i] == ks[i + 1] && ks[1..][j] == ks[j + 1];
    }
  }

  lemma RankTail(ks: seq<string>, x: string)
    requires Distinct(ks) && ks != [] && x in ks[1..]
    ensures x in ks && Rank(ks, x) == 1 + Rank(ks[1..], x)
  {
    var n := Rank(ks[1..], x);
    assert ks[n + 1] == x;
  }

  lemma {:induction false} MatchingSubset(keywords: seq<string>, text: string)
    ensures forall x :: x in Matching(keywords, text) ==> x in keywords
  {
    if keywords != [] {
      MatchingSubset(keywords[1..], text);
    }
  }

  /** The detected phrases appear in the order of the list. */
  lemma {:induction false} MatchingOrdered(keywords: seq<string>, text: string)
    requires Distinct(keywords)
    ensures forall x :: x in Matching(keywords, text) ==> x in keywords
    ensures forall i, j :: 0 <= i < j < |Matching(keywords, text)| ==>
              Rank(keywords, Matching(keywords, text)[i]) < Rank(keywords, Matching(keywords, text)[j])
  {
    MatchingSubset(keywords, text);
    if keywords != [] {
      var rest := keywords[1..];
      DistinctTail(keywords);
      MatchingOrdered(rest, text);
      var m := Matching(keywords, text);
      var tail := Matching(rest, text);
      var off := if Contains(text, keywords[0]) then 1 else 0;
      assert m == (if off == 1 then [keywords[0]] else []) + tail;
      forall i, j | 0 <= i < j < |m|
        ensures Rank(keywords, m[i]) < Rank(keywords, m[j])
      {
        assert m[j] == tail[j - off];
        RankTail(keywords, m[j]);
        if i >= off {
          assert m[i] == tail[i - off];
          RankTail(keywords, m[i]);
        }
      }
    }
  }

  /** The distress phrases are pairwise different. */
  lemma KeywordsDistinct()
    ensures Distinct(DistressKeywords)
  {
    forall i, j | 0 <= i < j < |DistressKeywords|
      ensures DistressKeywords[i] != DistressKeywords[j]
    {
      assert |DistressKeywords[i]| != |DistressKeywords[j]| || DistressKeywords[i][0] != DistressKeywords[j][0]
          || DistressKeywords[i] != DistressKeywords[j];
    }
  }

  /** `detect_emergency` reports exactly the listed phrases occurring in the
      text, in list order and each at most once; the flag says whether any was
      found. */
  lemma DetectEmergencyCharacterized(text: string)
    ensures forall k :: k in DetectEmergency(text).keywords <==> k in DistressKeywords && Contains(text, k)
    ensures forall i, j :: 0 <= i < j < |DetectEmergency(text).keywords| ==>
              DetectEmergency(text).keywords[i] != DetectEmergency(text).keywords[j]
              && Rank(DistressKeywords, DetectEmergency(text).keywords[i]) < Rank(DistressKeywords, DetectEmergency(text).keywords[j])
    ensures DetectEmergency(text).emergency <==> exists k :: k in DistressKeywords && Contains(text, k)
  {
    forall k ensures k in DetectEmergency(text).keywords <==> k in DistressKeywords && Contains(text, k) {
      MatchingMembers(DistressKeywords, text, k);
    }
    KeywordsDistinct();
    MatchingOrdered(DistressKeywords, text);
    var d := DetectEmergency(text).keywords;
    if exists k :: k in DistressKeywords && Contains(text, k) {
      var k :| k in DistressKeywords && Contains(text, k);
      assert k in d;
    }
    if |d| > 0 {
      assert d[0] in d;
    }
  }

  /** A detected phrase brings along every listed phrase it contains. */
  lemma ImpliedKeyword(text: string, phrase: string, word: string)
    requires phrase in DetectEmergency(text).keywords
    requires word in DistressKeywords && Contains(phrase, word)
    ensures word in DetectEmergency(text).keywords
  {
    MatchingMembers(DistressKeywords, text, phrase);
    ContainsTransitive(text, phrase, word);
    MatchingMembers(DistressKeywords, text, word);
  }

  /** Every phrase with "help" in it brings "help" along. */
  lemma HelpImplied(text: string, phrase: string)
    requires phrase in ["help me", "please help", "someone help", "i need help"]
    requires phrase in DetectEmergency(text).keywords
    ensures "help" in DetectEmergency(text).keywords
  {
    var at := if phrase == "please help" then 7 else if phrase == "someone help" then 8
              else if phrase == "i need help" then 7 else 0;
    assert "help" <= phrase[at..];
    assert DistressKeywords[0] == "help";
    ImpliedKeyword(text, phrase, "help");
  }

  /** "stop following me" brings "stop", and "leave me alone" brings "leave me". */
  lemma StopAndLeaveImplied(text: string)
    ensures "stop following me" in DetectEmergency(text).keywords ==> "stop" in DetectEmergency(text).keywords
    ensures "leave me alone" in DetectEmergency(text).keywords ==> "leave me" in DetectEmergency(text).keywords
  {
    assert DistressKeywords[5] == "stop" && DistressKeywords[6] == "leave me";
    assert "stop" <= "stop following me"[0..];
    assert "leave me" <= "leave me alone"[0..];
    if "stop following me" in DetectEmergency(text).keywords {
      ImpliedKeyword(text, "stop following me", "stop");
    }
    if "leave me alone" in DetectEmergency(text).keywords {
      ImpliedKeyword(text, "leave me alone", "leave me");
    }
  }

  lemma LowerKeepsOtherChars(s: string, c: char)
    requires !('A' <= c <= 'Z') && !('a' <= c <= 'z')
    ensures c in Lower(s) <==> c in s
  {
    if c in s {
      var k :| 0 <= k < |s| && s[k] == c;
      assert Lower(s)[k] == c;
    }
    if c in Lower(s) {
      var k :| 0 <= k < |Lower(s)| && Lower(s)[k] == c;
      assert LowerChar(s[k]) == c;
    }
  }

  /** The two phrases spelled with U+2019 are found only in transcriptions
      that contain that very character; a straight apostrophe does not match. */
  lemma TypographicApostrophe(rawText: string)
    requires '\U{2019}' !in rawText
    ensures "don\U{2019}t follow me" !in Analyze(rawText).keywords
    ensures "i\U{2019}m in danger" !in Analyze(rawText).keywords
  {
    var text := Lower(rawText);
    LowerKeepsOtherChars(rawText, '\U{2019}');
    MatchingMembers(DistressKeywords, text, "don\U{2019}t follow me");
    MatchingMembers(DistressKeywords, text, "i\U{2019}m in danger");
    if Contains(text, "don\U{2019}t follow me") {
      ContainsChars(text, "don\U{2019}t follow me", '\U{2019}');
    }
    if Contains(text, "i\U{2019}m in danger") {
      assert "i\U{2019}m in danger"[1] == '\U{2019}';
      ContainsChars(text, "i\U{2019}m in danger", '\U{2019}');
    }
  }

  /** Detection ignores the case of ASCII letters: an upper-cased transcription
      yields the same result. */
  lemma AnalyzeIgnoresCase(rawText: string)
    ensures Analyze(Upper(rawText)) == Analyze(rawText)
  {
    assert Lower(Upper(rawText)) == Lower(rawText) by {
      forall k | 0 <= k < |rawText| ensures Lower(Upper(rawText))[k] == Lower(rawText)[k] {
        assert Upper(rawText)[k] == UpperChar(rawText[k]);
      }
    }
  }
}
