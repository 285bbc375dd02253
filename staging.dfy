/**
 * Artifact staging: the file names and file contents that `generateFile`
 * and `generateInputFile` produce. The file system itself is a set of paths
 * (see module Runners); the uuid generator is the `jobId` parameter, of which
 * only freshness is assumed.
 */
module Staging {
  import opened Strings
  import opened Wrappers

  /** The two staging directories, `code-execution/codes` and `code-execution/inputs`. */
  datatype Dir = Codes | Inputs

  /** `path.join(dir, name)` for a name without separators. */
  datatype Path = Path(dir: Dir, name: string)

  /** The result of `generateFile`: the written path, `uniqueName` and the text written to it. */
  datatype StagedSource = StagedSource(filePath: Path, uniqueName: string, written: string)

  /** The result of `generateInputFile`: the written path and the text written to it. */
  datatype StagedInput = StagedInput(inputPath: Path, written: string)

  predicate IsAlnum(c: char) {
    ('a' <= c <= 'z') || ('A' <= c <= 'Z') || ('0' <= c <= '9')
  }

  /** `jobId.replace(/[^a-zA-Z0-9]/g, "_")`, one character at a time. */
  function ClassChar(c: char): (d: char)
    ensures IsAlnum(d) || d == '_'
    ensures IsAlnum(c) ==> d == c
    ensures !IsAlnum(c) ==> d == '_'
  {
    if IsAlnum(c) then c else '_'
  }

  /** `sanitizeJobId`: a Java-safe class name derived from a job id. */
  function SanitizeJobId(jobId: string): (r: string)
    ensures |r| == 6 + |jobId|
    ensures r[..6] == "Class_"
    ensures forall i :: 0 <= i < |r| ==> IsAlnum(r[i]) || r[i] == '_'
    ensures forall i :: 0 <= i < |jobId| ==> r[6 + i] == (if IsAlnum(jobId[i]) then jobId[i] else '_')
  {
    "Class_" + seq(|jobId|, i requires 0 <= i < |jobId| => ClassChar(jobId[i]))
  }

  /** An id made only of letters and digits is kept as it is behind the `Class_` prefix. */
  lemma SanitizeAlnumId(jobId: string)
    requires forall i :: 0 <= i < |jobId| ==> IsAlnum(jobId[i])
    ensures SanitizeJobId(jobId) == "Class_" + jobId
  {
  }

  /** Sanitizing is not injective: two ids differing only in a separator give one class name. */
  lemma SanitizeCollides()
    ensures SanitizeJobId("a-b") == SanitizeJobId("a_b")
  {
    assert SanitizeJobId("a-b")[7] == '_' == SanitizeJobId("a_b")[7];
    assert SanitizeJobId("a-b") == "Class_a_b";
    assert SanitizeJobId("a_b") == "Class_a_b";
  }

  /**
   * The un-escape chain of `generateFile`: `&lt;`, `&gt;`, `&quot;`, `&#39;`
   * and finally `&amp;` are each replaced globally, in this order.
   */
  function Unescape(code: string): string {
    var s1 := ReplaceAll(code, "&lt;", "<");
    var s2 := ReplaceAll(s1, "&gt;", ">");
    var s3 := ReplaceAll(s2, "&quot;", "\"");
    var s4 := ReplaceAll(s3, "&#39;", "'");
    ReplaceAll(s4, "&amp;", "&")
  }

  /** The five entities of the chain, in the order the chain replaces them. */
  function Entity(k: nat): (e: string)
    requires k < 5
    ensures |e| >= 4 && e[0] == '&'
    ensures forall j :: 1 <= j < |e| ==> e[j] != '&'
  {
    ["&lt;", "&gt;", "&quot;", "&#39;", "&amp;"][k]
  }

  /** The character entity `k` stands for. */
  function Plain(k: nat): char
    requires k < 5
  {
    ['<', '>', '"', '\'', '&'][k]
  }

  /** Which entity a character is written as, or -1 if it is written as itself. */
  function EntityIndex(c: char): (k: int)
    ensures -1 <= k < 5
    ensures 0 <= k ==> Plain(k) == c
    ensures k == -1 ==> forall j :: 0 <= j < 5 ==> Plain(j) != c
  {
    if c == '<' then 0 else if c == '>' then 1 else if c == '"' then 2
    else if c == '\'' then 3 else if c == '&' then 4 else -1
  }

  /** HTML escaping of one character, the encoding an HTML-aware transport applies. */
  function EscapeChar(c: char): string {
    var k := EntityIndex(c);
    if k < 0 then [c] else Entity(k)
  }

  function Escape(s: string): string {
    if s == [] then [] else EscapeChar(s[0]) + Escape(s[1..])
  }

  /** A character after `k` passes of the chain: plain once its own entity has been replaced. */
  function Token(k: nat, c: char): string {
    if EntityIndex(c) < k then [c] else EscapeChar(c)
  }

  function Stream(k: nat, s: string): string {
    if s == [] then [] else Token(k, s[0]) + Stream(k, s[1..])
  }

  lemma {:induction false} NoAmpersandNoMatch(s: string, pat: string)
    requires |pat| > 0 && pat[0] == '&' && '&' !in s
    ensures !Contains(s, pat)
    decreases |s|
  {
    if s != [] {
      assert s[0] != '&';
      NoAmpersandNoMatch(s[1..], pat);
    }
  }

  /** The replacement skips over a stretch without `&` when the pattern starts with `&`. */
  lemma {:induction false} ReplaceAllSkips(u: string, rest: string, pat: string, rep: string)
    requires |pat| > 0 && pat[0] == '&' && '&' !in u
    ensures ReplaceAll(u + rest, pat, rep) == u + ReplaceAll(rest, pat, rep)
    decreases |u|
  {
    if u != [] {
      assert (u + rest)[0] == u[0] != '&';
      assert !(pat <= u + rest);
      assert u == [u[0]] + u[1..];
      assert (u + rest)[1..] == u[1..] + rest;
      ReplaceAllSkips(u[1..], rest, pat, rep);
      calc {
        ReplaceAll(u + rest, pat, rep);
        [u[0]] + ReplaceAll(u[1..] + rest, pat, rep);
        [u[0]] + (u[1..] + ReplaceAll(rest, pat, rep));
        u + ReplaceAll(rest, pat, rep);
      }
    } else {
      assert u + rest == rest;
    }
  }

  /** Pass `k` on the token of a character whose entity is the `k`-th: the entity becomes the character. */
  lemma PassMatched(k: nat, c: char, rest: string)
    requires k < 5 && EntityIndex(c) == k
    ensures ReplaceAll(Token(k, c) + rest, Entity(k), [Plain(k)]) == Token(k + 1, c) + ReplaceAll(rest, Entity(k), [Plain(k)])
  {
    var pat := Entity(k);
    assert Token(k, c) == pat;
    assert pat <= pat + rest;
    assert (pat + rest)[|pat|..] == rest;
  }

  /** Pass `k` on a character already restored: it is no `&`, so it is skipped. */
  lemma PassRestored(k: nat, c: char, rest: string)
    requires k < 5 && EntityIndex(c) < k
    ensures ReplaceAll(Token(k, c) + rest, Entity(k), [Plain(k)]) == Token(k + 1, c) + ReplaceAll(rest, Entity(k), [Plain(k)])
  {
    assert Token(k, c) == [c] && c != '&';
    ReplaceAllSkips([c], rest, Entity(k), [Plain(k)]);
  }

  /** Entities differ in the character after the `&`. */
  lemma EntitiesDiffer(i: nat, j: nat)
    requires i < 5 && j < 5 && i != j
    ensures Entity(i)[1] != Entity(j)[1]
  {
  }

  /** The replacement steps over a whole entity other than the pattern. */
  lemma SkipEntity(e: string, pat: string, rest: string, rep: string)
    requires |e| >= 2 && |pat| >= 2 && e[0] == '&' && e[1] != pat[1]
    requires forall j :: 1 <= j < |e| ==> e[j] != '&'
    requires pat[0] == '&'
    ensures ReplaceAll(e + rest, pat, rep) == e + ReplaceAll(rest, pat, rep)
  {
    assert !(pat <= e + rest) by { assert (e + rest)[1] == e[1]; }
    assert (e + rest)[1..] == e[1..] + rest;
    ReplaceAllSkips(e[1..], rest, pat, rep);
    assert e == [e[0]] + e[1..];
  }

  /** Pass `k` on the token of a later entity: it differs from the `k`-th after the `&` and is kept. */
  lemma PassLater(k: nat, c: char, rest: string)
    requires k < 5 && EntityIndex(c) > k
    ensures ReplaceAll(Token(k, c) + rest, Entity(k), [Plain(k)]) == Token(k + 1, c) + ReplaceAll(rest, Entity(k), [Plain(k)])
  {
    var idx := EntityIndex(c);
    assert Token(k, c) == Entity(idx) == Token(k + 1, c);
    EntitiesDiffer(idx, k);
    SkipEntity(Entity(idx), Entity(k), rest, [Plain(k)]);
  }

  /** One pass of the chain turns the `k`-th entity back into its character and leaves the rest. */
  lemma {:induction false} PassLemma(k: nat, s: string)
    requires k < 5
    ensures ReplaceAll(Stream(k, s), Entity(k), [Plain(k)]) == Stream(k + 1, s)
    decreases |s|
  {
    if s != [] {
      var c := s[0];
      assert Stream(k, s) == Token(k, c) + Stream(k, s[1..]);
      PassLemma(k, s[1..]);
      var idx := EntityIndex(c);
      if idx == k {
        PassMatched(k, c, Stream(k, s[1..]));
      } else if idx < k {
        PassRestored(k, c, Stream(k, s[1..]));
      } else {
        PassLater(k, c, Stream(k, s[1..]));
      }
    }
  }

  lemma {:induction false} StreamStart(s: string)
    ensures Stream(0, s) == Escape(s)
  {
    if s != [] { StreamStart(s[1..]); }
  }

  lemma {:induction false} StreamEnd(s: string)
    ensures Stream(5, s) == s
  {
    if s != [] {
      StreamEnd(s[1..]);
      assert s == [s[0]] + s[1..];
    }
  }

  /**
   * The chain undoes exactly one level of HTML escaping: un-escaping the
   * escaped text gives the text back, whatever entities it already held.
   */
  lemma EscapeRoundTrip(s: string)
    ensures Unescape(Escape(s)) == s
  {
    StreamStart(s);
    PassLemma(0, s);
    PassLemma(1, s);
    PassLemma(2, s);
    PassLemma(3, s);
    PassLemma(4, s);
    StreamEnd(s);
  }

  /** Because `&amp;` is replaced last, `&amp;lt;` decodes to `&lt;` and not to `<`. */
  lemma UnescapeSingleLevel()
    ensures Unescape("&amp;lt;") == "&lt;"
  {
    assert Escape("&lt;") == "&amp;lt;" by {
      assert Escape("&lt;") == "&amp;" + Escape("lt;");
      assert Escape("lt;") == "l" + Escape("t;");
      assert Escape("t;") == "t" + Escape(";");
      assert Escape(";") == ";";
    }
    EscapeRoundTrip("&lt;");
  }

  /** Source text without `&` is written exactly as received. */
  lemma UnescapeWithoutAmpersand(code: string)
    requires '&' !in code
    ensures Unescape(code) == code
  {
    NoAmpersandNoMatch(code, "&lt;");
    NoAmpersandNoMatch(code, "&gt;");
    NoAmpersandNoMatch(code, "&quot;");
    NoAmpersandNoMatch(code, "&#39;");
    NoAmpersandNoMatch(code, "&amp;");
  }

  /** The file name `generateFile` chooses for a format and a job id. */
  function SourceFileName(format: string, jobId: string): (name: string)
    ensures format == "java" ==> name == SanitizeJobId(jobId) + ".java"
    ensures format != "java" ==> name == jobId + "." + format
  {
    if format == "java" then SanitizeJobId(jobId) + "." + format else jobId + "." + format
  }

  /** `generateFile(format, content)` with the uuid drawn as `jobId`. */
  function GenerateFile(format: string, content: string, jobId: string): (r: StagedSource)
    ensures r.filePath == Path(Codes, SourceFileName(format, jobId))
    ensures r.uniqueName == jobId
    ensures r.written == Unescape(content)
  {
    StagedSource(Path(Codes, SourceFileName(format, jobId)), jobId, Unescape(content))
  }

  /** For every format but java, distinct job ids give distinct staged paths. */
  lemma SourceNamesInjective(format: string, id1: string, id2: string)
    requires format != "java" && id1 != id2
    ensures GenerateFile(format, "", id1).filePath != GenerateFile(format, "", id2).filePath
  {
    assert id1 + "." + format == id1 + ("." + format);
    assert id2 + "." + format == id2 + ("." + format);
    if id1 + "." + format == id2 + "." + format {
      AppendInjective(id1, id2, "." + format);
    }
  }

  /** Even for java the returned `uniqueName` is the raw job id, never the class name. */
  lemma JavaUniqueNameIsRaw(content: string, jobId: string)
    ensures GenerateFile("java", content, jobId).uniqueName == jobId
    ensures GenerateFile("java", content, jobId).filePath.name != jobId + ".java"
  {
    var n := GenerateFile("java", content, jobId).filePath.name;
    assert |n| == |jobId| + 11;
  }

  /** `generateInputFile(uniqueName, input)`: `inputs/<uniqueName>.txt` holding `input || ""`. */
  function GenerateInputFile(uniqueName: string, input: Option<string>): (r: StagedInput)
    ensures r.inputPath == Path(Inputs, uniqueName + ".txt")
    ensures input.None? ==> r.written == ""
    ensures input.Some? ==> r.written == input.value
  {
    StagedInput(Path(Inputs, uniqueName + ".txt"), input.GetOr(""))
  }

  /** The input path depends on the name alone and never lies among the staged sources. */
  lemma InputPathProperties(n1: string, n2: string, i1: Option<string>, i2: Option<string>, format: string, c: string)
    ensures (GenerateInputFile(n1, i1).inputPath == GenerateInputFile(n2, i2).inputPath) <==> n1 == n2
    ensures GenerateInputFile(n1, i1).inputPath != GenerateFile(format, c, n2).filePath
  {
    if n1 + ".txt" == n2 + ".txt" {
      AppendInjective(n1, n2, ".txt");
    }
  }
}
