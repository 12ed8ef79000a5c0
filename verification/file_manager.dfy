/** The name and path rules of `FileManager`: cleaning a topic into a file
    name, adding the recording extension, building the path inside the
    recordings directory, and listing the recordings of a directory. The
    directory, the extension and the directory listing are parameters; the
    file system itself is not part of this model. */
module FileManager {
  import opened Base

  /** The characters `_clean_filename` replaces, in the order it visits them. */
  const InvalidChars: string := "<>:\"/\\|?*"

  /** The longest cleaned name `_clean_filename` keeps. */
  const MaxCleanLength: nat := 50

  /** str.replace(c, d) for single characters. */
  function ReplaceChar(s: string, c: char, d: char): (r: string)
    ensures |r| == |s|
  {
    seq(|s|, i requires 0 <= i < |s| => if s[i] == c then d else s[i])
  }

  /** Every invalid character replaced by an underscore. */
  function MaskInvalid(s: string): (r: string)
    ensures |r| == |s|
  {
    seq(|s|, i requires 0 <= i < |s| => if s[i] in InvalidChars then '_' else s[i])
  }

  /** The words of `s` when `cur` is the word being read: whitespace ends the
      current word, and empty words are never produced. */
  function SplitFrom(s: string, cur: string): seq<string> {
    if s == [] then (if cur == [] then [] else [cur])
    else if IsSpace(s[0]) then (if cur == [] then [] else [cur]) + SplitFrom(s[1..], [])
    else SplitFrom(s[1..], cur + [s[0]])
  }

  /** Python's str.split() with no argument: the maximal whitespace-free runs. */
  function Split(s: string): seq<string> {
    SplitFrom(s, [])
  }

  /** sep.join(words). */
  function Join(words: seq<string>, sep: string): string {
    if words == [] then []
    else if |words| == 1 then words[0]
    else words[0] + sep + Join(words[1..], sep)
  }

  /** A word as str.split() yields it: non-empty, free of whitespace, and made
      of characters of `source`. */
  predicate IsWordOf(w: string, source: string) {
    w != [] && forall i :: 0 <= i < |w| ==> !IsSpace(w[i]) && w[i] in source
  }

  lemma {:induction false} SplitFromWords(s: string, cur: string)
    requires forall i :: 0 <= i < |cur| ==> !IsSpace(cur[i])
    ensures forall k :: 0 <= k < |SplitFrom(s, cur)| ==> IsWordOf(SplitFrom(s, cur)[k], cur + s)
  {
    if s == [] {
    } else if IsSpace(s[0]) {
      SplitFromWords(s[1..], []);
      var head := if cur == [] then [] else [cur];
      var ws, rest := SplitFrom(s, cur), SplitFrom(s[1..], []);
      assert ws == head + rest;
      forall k | 0 <= k < |ws| ensures IsWordOf(ws[k], cur + s) {
        if k >= |head| {
          assert ws[k] == rest[k - |head|];
          assert IsWordOf(ws[k], [] + s[1..]);
          forall i | 0 <= i < |ws[k]| ensures ws[k][i] in cur + s {
            var j :| 0 <= j < |s[1..]| && s[1..][j] == ws[k][i];
            assert (cur + s)[|cur| + 1 + j] == ws[k][i];
          }
        }
      }
    } else {
      SplitFromWords(s[1..], cur + [s[0]]);
      assert (cur + [s[0]]) + s[1..] == cur + s;
    }
  }

  /** Every word of a split is non-empty, free of whitespace, and made of
      characters of the input. */
  lemma SplitWords(s: string)
    ensures forall k :: 0 <= k < |Split(s)| ==> IsWordOf(Split(s)[k], s)
  {
    SplitFromWords(s, []);
    assert [] + s == s;
  }

  lemma {:induction false} SplitFromNoSpace(s: string, cur: string)
    requires forall i :: 0 <= i < |s| ==> !IsSpace(s[i])
    ensures SplitFrom(s, cur) == if cur + s == [] then [] else [cur + s]
  {
    if s == [] {
      assert cur + s == cur;
    } else {
      SplitFromNoSpace(s[1..], cur + [s[0]]);
      assert (cur + [s[0]]) + s[1..] == cur + s;
    }
  }

  /** A non-empty string without whitespace splits into itself. */
  lemma SplitNoSpace(s: string)
    requires s != []
    requires forall i :: 0 <= i < |s| ==> !IsSpace(s[i])
    ensures Split(s) == [s]
  {
    SplitFromNoSpace(s, []);
    assert [] + s == s;
  }

  predicate AllSpace(s: string) {
    forall i :: 0 <= i < |s| ==> IsSpace(s[i])
  }

  /** Whitespace alone only closes the pending word. */
  lemma {:induction false} SplitFromSpaces(s: string, cur: string)
    requires AllSpace(s)
    ensures SplitFrom(s, cur) == if cur == [] then [] else [cur]
  {
    if s != [] {
      SplitFromSpaces(s[1..], []);
    }
  }

  /** Leading whitespace produces no word. */
  lemma {:induction false} SplitFromLeadingSpaces(p: string, b: string)
    requires AllSpace(p)
    ensures SplitFrom(p + b, []) == SplitFrom(b, [])
  {
    if p == [] {
      assert p + b == b;
    } else {
      assert (p + b)[1..] == p[1..] + b;
      SplitFromLeadingSpaces(p[1..], b);
    }
  }

  /** Trailing whitespace produces no word. */
  lemma {:induction false} SplitFromTrailingSpaces(x: string, u: string, cur: string)
    requires AllSpace(u)
    ensures SplitFrom(x + u, cur) == SplitFrom(x, cur)
  {
    if x == [] {
      assert x + u == u;
      SplitFromSpaces(u, cur);
    } else {
      assert (x + u)[0] == x[0];
      assert (x + u)[1..] == x[1..] + u;
      if IsSpace(x[0]) {
        SplitFromTrailingSpaces(x[1..], u, []);
      } else {
        SplitFromTrailingSpaces(x[1..], u, cur + [x[0]]);
      }
    }
  }

  /** A whitespace character separates: the words before it, then the words
      after it. */
  lemma {:induction false} SplitFromAtSpace(a: string, c: char, b: string, cur: string)
    requires IsSpace(c)
    ensures SplitFrom(a + [c] + b, cur) == SplitFrom(a, cur) + SplitFrom(b, [])
  {
    var s := a + [c] + b;
    if a == [] {
      assert s == [c] + b;
      assert s[1..] == b;
    } else {
      assert s[0] == a[0];
      assert s[1..] == a[1..] + [c] + b;
      if IsSpace(a[0]) {
        SplitFromAtSpace(a[1..], c, b, []);
      } else {
        SplitFromAtSpace(a[1..], c, b, cur + [a[0]]);
      }
    }
  }

  /** str.split() is determined by the whitespace runs: a run of any length
      between two texts splits them apart and adds no word of its own. */
  lemma SplitSpaceRun(a: string, run: string, b: string)
    requires run != [] && AllSpace(run)
    ensures Split(a + run + b) == Split(a) + Split(b)
  {
    assert a + run + b == a + [run[0]] + (run[1..] + b);
    SplitFromAtSpace(a, run[0], run[1..] + b, []);
    SplitFromLeadingSpaces(run[1..], b);
  }

  /** Leading and trailing whitespace runs add no word. */
  lemma SplitTrimmed(p: string, x: string, u: string)
    requires AllSpace(p) && AllSpace(u)
    ensures Split(p + x + u) == Split(x)
  {
    assert p + x + u == p + (x + u);
    SplitFromLeadingSpaces(p, x + u);
    SplitFromTrailingSpaces(x, u, []);
  }

  /** Text without whitespace or invalid characters. */
  predicate Plain(w: string) {
    forall i :: 0 <= i < |w| ==> !IsSpace(w[i]) && w[i] !in InvalidChars
  }

  /** Whitespace runs around and between two plain words collapse to one
      underscore between them, and the leading and trailing runs vanish. */
  lemma CleanNameCollapses(p: string, w1: string, q: string, w2: string, u: string)
    requires AllSpace(p) && AllSpace(q) && AllSpace(u) && q != []
    requires w1 != [] && w2 != [] && Plain(w1) && Plain(w2)
    requires |w1| + 1 + |w2| <= MaxCleanLength
    ensures CleanName(p + w1 + q + w2 + u) == w1 + "_" + w2
  {
    var s := p + w1 + q + w2 + u;
    forall i | 0 <= i < |s| ensures s[i] !in InvalidChars {
      assert s[i] in p || s[i] in w1 || s[i] in q || s[i] in w2 || s[i] in u;
    }
    assert MaskInvalid(s) == s;
    assert s == p + (w1 + q + w2) + u;
    SplitTrimmed(p, w1 + q + w2, u);
    SplitSpaceRun(w1, q, w2);
    SplitNoSpace(w1);
    SplitNoSpace(w2);
    assert Split(s) == [w1, w2];
    assert Join([w1, w2], "_") == w1 + "_" + Join([w2], "_");
  }

  /** A joined string holds only characters of the separator or of the words. */
  lemma {:induction false} JoinChars(words: seq<string>, sep: string, c: char)
    requires c in Join(words, sep)
    ensures c in sep || exists k :: 0 <= k < |words| && c in words[k]
  {
    if |words| > 1 {
      if c !in words[0] && c !in sep {
        JoinChars(words[1..], sep, c);
        var k :| 0 <= k < |words[1..]| && c in words[1..][k];
        assert c in words[k + 1];
      }
    }
  }

  /** The string `_clean_filename` returns, stated as a function of its input:
      invalid characters masked, whitespace runs collapsed to one underscore
      (leading and trailing runs dropped), then cut to 50 characters. */
  function CleanName(s: string): string {
    var collapsed := Join(Split(MaskInvalid(s)), "_");
    if |collapsed| > MaxCleanLength then collapsed[..MaxCleanLength] else collapsed
  }

  /** A cleaned name has no invalid character, no whitespace, and at most 50
      characters; when the collapsed text already fits it is kept whole. */
  lemma CleanNameSafe(s: string)
    ensures |CleanName(s)| <= MaxCleanLength
    ensures forall i :: 0 <= i < |CleanName(s)| ==>
              CleanName(s)[i] !in InvalidChars && !IsSpace(CleanName(s)[i])
    ensures |Join(Split(MaskInvalid(s)), "_")| <= MaxCleanLength ==>
              CleanName(s) == Join(Split(MaskInvalid(s)), "_")
  {
    var m := MaskInvalid(s);
    var words := Split(m);
    var collapsed := Join(words, "_");
    SplitWords(m);
    forall i | 0 <= i < |CleanName(s)|
      ensures CleanName(s)[i] !in InvalidChars && !IsSpace(CleanName(s)[i])
    {
      var c := CleanName(s)[i];
      assert c == collapsed[i];
      JoinChars(words, "_", c);
      if c !in "_" {
        var k :| 0 <= k < |words| && c in words[k];
        var j :| 0 <= j < |words[k]| && words[k][j] == c;
        assert IsWordOf(words[k], m);
        assert c in m;
      }
    }
  }

  /** Invalid characters are replaced, not removed: a short name without
      whitespace keeps its length, with an underscore at each invalid
      position and every other character in place. */
  lemma CleanNameReplaces(s: string)
    requires 0 < |s| <= MaxCleanLength
    requires forall i :: 0 <= i < |s| ==> !IsSpace(s[i])
    ensures |CleanName(s)| == |s|
    ensures forall i :: 0 <= i < |s| ==>
              CleanName(s)[i] == if s[i] in InvalidChars then '_' else s[i]
  {
    var m := MaskInvalid(s);
    forall i | 0 <= i < |m| ensures !IsSpace(m[i]) {
      assert m[i] == s[i] || m[i] == '_';
    }
    SplitNoSpace(m);
    assert Join(Split(m), "_") == m;
  }

  /** `_clean_filename`: the loop over the invalid characters, then the
      whitespace collapse and the cut to 50 characters. */
  method CleanFilename(filename: string) returns (r: string)
    ensures r == CleanName(filename)
    ensures |r| <= MaxCleanLength
    ensures forall i :: 0 <= i < |r| ==> r[i] !in InvalidChars && !IsSpace(r[i])
  {
    var f := filename;
    for k := 0 to |InvalidChars|
      invariant |f| == |filename|
      invariant forall i :: 0 <= i < |f| ==>
                  f[i] == if filename[i] in InvalidChars[..k] then '_' else filename[i]
    {
      f := ReplaceChar(f, InvalidChars[k], '_');
    }
    assert InvalidChars[..|InvalidChars|] == InvalidChars;
    assert f == MaskInvalid(filename);
    f := Join(Split(f), "_");
    if |f| > MaxCleanLength {
      f := f[..MaxCleanLength];
    }
    r := f;
    CleanNameSafe(filename);
  }

  /** posixpath.join(a, b) for two components. */
  function PathJoin(a: string, b: string): (p: string)
    ensures EndsWith(p, b)
  {
    if b != [] && b[0] == '/' then b
    else if a == [] || a[|a| - 1] == '/' then a + b
    else a + "/" + b
  }

  /** The file name with the extension appended unless it is already there. */
  function WithExtension(filename: string, ext: string): (r: string)
    ensures EndsWith(r, ext)
    ensures EndsWith(filename, ext) ==> r == filename
    ensures !EndsWith(filename, ext) ==> r == filename + ext
  {
    if EndsWith(filename, ext) then filename
    else
      var r := filename + ext;
      assert r[|r| - |ext|..] == ext;
      r
  }

  /** `get_recording_path`: always ends in the extension, and a name that
      already carries it is joined as it is. */
  function GetRecordingPath(dir: string, ext: string, filename: string): (p: string)
    ensures EndsWith(p, ext)
    ensures EndsWith(filename, ext) ==> p == PathJoin(dir, filename)
    ensures !EndsWith(filename, ext) ==> p == PathJoin(dir, filename + ext)
  {
    var name := WithExtension(filename, ext);
    var p := PathJoin(dir, name);
    EndsWithTransitive(p, name, ext);
    p
  }

  /** A suffix of a suffix is a suffix. */
  lemma EndsWithTransitive(s: string, t: string, u: string)
    requires EndsWith(s, t) && EndsWith(t, u)
    ensures EndsWith(s, u)
  {
    assert s[|s| - |u|..] == s[|s| - |t|..][|t| - |u|..];
  }

  /** Adding the extension twice is the same as adding it once. */
  lemma WithExtensionIdempotent(filename: string, ext: string)
    ensures WithExtension(WithExtension(filename, ext), ext) == WithExtension(filename, ext)
  {
  }

  /** `generate_filename`; `timestamp` stands for datetime.now() formatted as
      "%Y%m%d_%H%M%S" and is used only when `includeTimestamp` holds. */
  method GenerateFilename(dir: string, ext: string, topic: string, includeTimestamp: bool, timestamp: string)
    returns (path: string)
    ensures includeTimestamp ==> path == PathJoin(dir, CleanName(topic) + "_" + timestamp + ext)
    ensures !includeTimestamp ==> path == PathJoin(dir, CleanName(topic) + ext)
    ensures EndsWith(path, ext)
  {
    var cleanTopic := CleanFilename(topic);
    var filename;
    if includeTimestamp {
      filename := cleanTopic + "_" + timestamp + ext;
    } else {
      filename := cleanTopic + ext;
    }
    path := PathJoin(dir, filename);
    assert path[|path| - |ext|..] == filename[|filename| - |ext|..];
  }

  /** The entries of a listing that end with the extension, in listing order. */
  function WithExt(entries: seq<string>, ext: string): seq<string> {
    if entries == [] then []
    else
      var last := entries[|entries| - 1];
      WithExt(entries[..|entries| - 1], ext) + (if EndsWith(last, ext) then [last] else [])
  }

  lemma {:induction false} WithExtMembers(entries: seq<string>, ext: string)
    ensures forall x :: x in WithExt(entries, ext) <==> x in entries && EndsWith(x, ext)
  {
    if entries != [] {
      var init := entries[..|entries| - 1];
      WithExtMembers(init, ext);
      assert entries == init + [entries[|entries| - 1]];
    }
  }

  /** Python's ordering of strings: lexicographic by code point, a proper
      prefix first. */
  predicate LexLe(a: string, b: string)
    decreases |a|
  {
    a == [] || (b != [] && (a[0] < b[0] || (a[0] == b[0] && LexLe(a[1..], b[1..]))))
  }

  lemma {:induction false} LexLeTotal(a: string, b: string)
    ensures LexLe(a, b) || LexLe(b, a)
    decreases |a|
  {
    if a != [] && b != [] && a[0] == b[0] {
      LexLeTotal(a[1..], b[1..]);
    }
  }

  lemma {:induction false} LexLeTransitive(a: string, b: string, c: string)
    requires LexLe(a, b) && LexLe(b, c)
    ensures LexLe(a, c)
    decreases |a|
  {
    if a != [] && b != [] && c != [] && a[0] == b[0] && b[0] == c[0] {
      LexLeTransitive(a[1..], b[1..], c[1..]);
    }
  }

  predicate Sorted(s: seq<string>) {
    forall i, j :: 0 <= i < j < |s| ==> LexLe(s[i], s[j])
  }

  function Insert(x: string, s: seq<string>): seq<string> {
    if s == [] then [x]
    else if LexLe(x, s[0]) then [x] + s
    else [s[0]] + Insert(x, s[1..])
  }

  /** Python's sorted() on a list of strings. */
  function SortStrings(s: seq<string>): seq<string> {
    if s == [] then [] else Insert(s[0], SortStrings(s[1..]))
  }

  lemma {:induction false} InsertPermutes(x: string, s: seq<string>)
    ensures multiset(Insert(x, s)) == multiset(s) + multiset{x}
  {
    if s != [] && !LexLe(x, s[0]) {
      InsertPermutes(x, s[1..]);
      assert s == [s[0]] + s[1..];
    }
  }

  lemma {:induction false} InsertSorted(x: string, s: seq<string>)
    requires Sorted(s)
    ensures Sorted(Insert(x, s))
  {
    if s == [] {
    } else if LexLe(x, s[0]) {
      forall j | 0 <= j < |s| ensures LexLe(x, s[j]) {
        if j > 0 {
          LexLeTransitive(x, s[0], s[j]);
        }
      }
      var r := Insert(x, s);
      assert r == [x] + s;
      forall i, j | 0 <= i < j < |r| ensures LexLe(r[i], r[j]) {
        assert r[j] == s[j - 1];
        if i > 0 {
          assert r[i] == s[i - 1];
        }
      }
    } else {
      LexLeTotal(x, s[0]);
      InsertSorted(x, s[1..]);
      InsertPermutes(x, s[1..]);
      var t := Insert(x, s[1..]);
      forall j | 0 <= j < |t| ensures LexLe(s[0], t[j]) {
        assert t[j] in multiset(s[1..]) + multiset{x};
        if t[j] != x {
          var k :| 0 <= k < |s[1..]| && s[1..][k] == t[j];
          assert LexLe(s[0], s[k + 1]);
        }
      }
    }
  }

  /** sorted() returns an ascending permutation of its input. */
  lemma {:induction false} SortStringsCorrect(s: seq<string>)
    ensures Sorted(SortStrings(s))
    ensures multiset(SortStrings(s)) == multiset(s)
  {
    if s != [] {
      SortStringsCorrect(s[1..]);
      InsertSorted(s[0], SortStrings(s[1..]));
      InsertPermutes(s[0], SortStrings(s[1..]));
      assert s == [s[0]] + s[1..];
    }
  }

  /** `list_recordings`: `listing` is the directory's entries (None when the
      directory does not exist); the loop keeps the entries with the
      extension, then they are sorted. */
  method ListRecordings(listing: Option<seq<string>>, ext: string) returns (r: seq<string>)
    ensures listing.None? ==> r == []
    ensures listing.Some? ==> multiset(r) == multiset(WithExt(listing.value, ext))
    ensures Sorted(r)
    ensures forall x :: x in r <==> listing.Some? && x in listing.value && EndsWith(x, ext)
  {
    if listing.None? {
      return [];
    }
    var entries := listing.value;
    var recordings: seq<string> := [];
    for i := 0 to |entries|
      invariant recordings == WithExt(entries[..i], ext)
    {
      assert entries[..i + 1][..i] == entries[..i];
      if EndsWith(entries[i], ext) {
        recordings := recordings + [entries[i]];
      }
    }
    assert entries[..|entries|] == entries;
    r := SortStrings(recordings);
    SortStringsCorrect(recordings);
    WithExtMembers(entries, ext);
    forall x ensures x in r <==> x in recordings {
      assert x in r <==> x in multiset(r);
      assert x in recordings <==> x in multiset(recordings);
    }
  }
}
