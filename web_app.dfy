// The upload filter of the web front end: a file is accepted when its name
// has a '.' and the text after the last '.', lower-cased, is one of the audio
// extensions the extractor handles. Routing and request handling are left out.
module WebApp {
  import opened Text

  const AllowedExtensions: set<string> := {"mp3", "mp4", "wav", "aiff"}

  /** filename.rsplit('.', 1)[1] when filename holds a '.': the text after its last '.'. */
  function AfterLast(s: string, c: char): (r: string)
    ensures c !in r
    ensures |r| <= |s| && r == s[|s| - |r|..]
    ensures c in s ==> |r| < |s| && s[|s| - |r| - 1] == c
    decreases |s|
  {
    if |s| == 0 then ""
    else if s[|s| - 1] == c then ""
    else
      var r := AfterLast(s[..|s| - 1], c);
      assert c in s ==> c in s[..|s| - 1] by {
        if c in s {
          var i :| 0 <= i < |s| && s[i] == c;
          assert s[..|s| - 1][i] == c;
        }
      }
      r + [s[|s| - 1]]
  }

  /** allowed_file. */
  predicate AllowedFile(filename: string) {
    '.' in filename && Lower(AfterLast(filename, '.')) in AllowedExtensions
  }

  lemma NoDotRejected(filename: string)
    requires '.' !in filename
    ensures !AllowedFile(filename)
  {
  }

  /** The text after the last separator of p + [c] + e is e, whatever p holds. */
  lemma {:induction false} AfterLastAppend(p: string, c: char, e: string)
    requires c !in e
    ensures AfterLast(p + [c] + e, c) == e
    decreases |e|
  {
    var s := p + [c] + e;
    if |e| == 0 {
      assert s[|s| - 1] == c;
    } else {
      var e' := e[..|e| - 1];
      assert s[..|s| - 1] == p + [c] + e';
      AfterLastAppend(p, c, e');
      assert s[|s| - 1] == e[|e| - 1];
      assert e == e' + [e[|e| - 1]];
    }
  }

  /** Only the text after the last '.' decides, lower-cased. */
  lemma AllowedFileByExtension(stem: string, extension: string)
    requires '.' !in extension
    ensures AllowedFile(stem + "." + extension) <==> Lower(extension) in AllowedExtensions
  {
    AfterLastAppend(stem, '.', extension);
    var s := stem + "." + extension;
    assert s[|stem|] == '.';
  }

  lemma LowerSnoc(s: string, c: char)
    ensures Lower(s + [c]) == Lower(s) + [LowerChar(c)]
  {
  }

  /** How one more character at the end changes the text after the last c. */
  lemma AfterLastSnoc(init: string, last: char, c: char)
    ensures AfterLast(init + [last], c) == if last == c then "" else AfterLast(init, c) + [last]
  {
    var s := init + [last];
    assert s[..|s| - 1] == init;
  }

  /** Lower-casing commutes with taking the text after the last '.'. */
  lemma {:induction false} LowerAfterLast(s: string)
    ensures Lower(AfterLast(s, '.')) == AfterLast(Lower(s), '.')
    decreases |s|
  {
    if |s| > 0 {
      var init, last := s[..|s| - 1], s[|s| - 1];
      assert s == init + [last];
      LowerAfterLast(init);
      LowerSnoc(init, last);
      AfterLastSnoc(init, last, '.');
      AfterLastSnoc(Lower(init), LowerChar(last), '.');
      if last != '.' {
        LowerSnoc(AfterLast(init, '.'), last);
      }
    }
  }

  lemma LowerIdempotent(s: string)
    ensures Lower(Lower(s)) == Lower(s)
  {
  }

  lemma DotSurvivesLower(s: string)
    ensures '.' in s <==> '.' in Lower(s)
  {
    if '.' in s {
      var i :| 0 <= i < |s| && s[i] == '.';
      assert Lower(s)[i] == '.';
    }
    if '.' in Lower(s) {
      var i :| 0 <= i < |s| && Lower(s)[i] == '.';
      assert s[i] == '.';
    }
  }

  /** The decision ignores the case of every letter in the name. */
  lemma AllowedFileIgnoresCase(f: string, g: string)
    requires Lower(f) == Lower(g)
    ensures AllowedFile(f) == AllowedFile(g)
  {
    LowerAfterLast(f);
    LowerAfterLast(g);
    LowerIdempotent(AfterLast(Lower(f), '.'));
    DotSurvivesLower(f);
    DotSurvivesLower(g);
    assert Lower(AfterLast(f, '.')) == Lower(AfterLast(g, '.'));
  }

  /** A name whose last extension is an audio type passes, whatever the earlier extensions. */
  lemma AcceptsLastExtension()
    ensures AllowedFile("a.tar.wav")
  {
    AllowedFileByExtension("a.tar", "wav");
    assert "a.tar" + "." + "wav" == "a.tar.wav";
    assert Lower("wav") == "wav";
  }

  /** Nothing needs to come before the '.'. */
  lemma AcceptsEmptyStem()
    ensures AllowedFile(".wav")
  {
    AllowedFileByExtension("", "wav");
    assert "" + "." + "wav" == ".wav";
    assert Lower("wav") == "wav";
  }

  /** An upper-case extension passes. */
  lemma AcceptsUpperCase()
    ensures AllowedFile("X.WAV")
  {
    AllowedFileByExtension("X", "WAV");
    assert "X" + "." + "WAV" == "X.WAV";
    assert Lower("WAV") == "wav";
  }

  /** A mixed-case extension passes. */
  lemma AcceptsMixedCase()
    ensures AllowedFile("x.Mp3")
  {
    AllowedFileByExtension("x", "Mp3");
    assert "x" + "." + "Mp3" == "x.Mp3";
    assert Lower("Mp3") == "mp3";
  }

  /** An audio extension that is not the last one does not count. */
  lemma RejectsInnerExtension()
    ensures !AllowedFile("a.wav.txt")
  {
    AllowedFileByExtension("a.wav", "txt");
    assert "a.wav" + "." + "txt" == "a.wav.txt";
    assert Lower("txt") == "txt";
  }

  /** A name ending in '.' has an empty extension and fails. */
  lemma RejectsEmptyExtension()
    ensures !AllowedFile("song.")
  {
    AllowedFileByExtension("song", "");
    assert "song" + "." + "" == "song.";
    assert Lower("") == "";
  }
}
