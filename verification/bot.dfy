/**
 * The bulk-checking Telegram bot: reading a boolean setting, cutting a list
 * into chunks, turning `/check` arguments or an uploaded text file into a
 * list of handles, capping that list, and turning the checker's buckets into
 * the reply (a summary and one document per non-empty bucket).
 *
 * Authorization and the bot token arrive as booleans; the configured bulk
 * limit as an integer; the checker's requests as `fetch`.
 */
module BulkBot {
  import opened Common
  import opened Text
  import Checker

  // ===========================================================================
  // Settings

  const TrueWords: seq<string> := ["1", "true", "yes", "y"]

  /** `_read_env_bool`: the default when unset, otherwise whether the trimmed, lower-cased value is a yes-word. */
  function ReadEnvBool(v: Option<string>, default: bool): (b: bool)
    ensures v.None? ==> b == default
    ensures v.Some? ==> (b <==> Lower(Strip(v.value)) in TrueWords)
  {
    if v.None? then default else Lower(Strip(v.value)) in TrueWords
  }

  /** A yes-word padded with whitespace on either side reads as true. */
  lemma PaddedYesWordIsTrue(a: string, k: nat, b: string, default: bool)
    requires Blank(a) && Blank(b) && k < |TrueWords|
    ensures ReadEnvBool(Some(a + TrueWords[k] + b), default)
  {
    var w := TrueWords[k];
    StripPadded(a, w, b);
    YesWordIsLower(k);
    LowerKeepsLowercase(w);
  }

  lemma YesWordIsLower(k: nat)
    requires k < |TrueWords|
    ensures forall i :: 0 <= i < |TrueWords[k]| ==> 'a' <= TrueWords[k][i] <= 'z' || IsDigit(TrueWords[k][i])
  {
  }

  /** Once the variable is set, the default plays no part. */
  lemma SetValueIgnoresDefault(s: string)
    ensures ReadEnvBool(Some(s), false) == ReadEnvBool(Some(s), true)
  {
  }

  /** Python's `str.isdigit()` on ASCII text: non-empty and all decimal digits. */
  predicate AllDigits(p: string)
  {
    p != [] && forall i :: 0 <= i < |p| ==> IsDigit(p[i])
  }

  /** `ALLOWED_USER_IDS`: spaces removed, split at commas, the all-digit pieces read as numbers. */
  function AllowedIds(raw: string): (ids: set<int>)
  {
    set p | p in SplitOn(Without(raw, Exactly(' ')), Exactly(',')) && AllDigits(p) :: DigitsValue(p)
  }

  /** `check_auth`: an empty allow-list admits everyone; otherwise the sender's id must be listed. */
  function CheckAuth(allowed: set<int>, uid: Option<int>): (ok: bool)
    ensures allowed == {} ==> ok
    ensures allowed != {} ==> (ok <==> uid.Some? && uid.value in allowed)
  {
    allowed == {} || (uid.Some? && uid.value in allowed)
  }

  /** Python's `str(n)` for each id. */
  function Rendered(ids: seq<nat>): (r: seq<string>)
    ensures |r| == |ids|
    ensures forall k :: 0 <= k < |r| ==> r[k] == NatToString(ids[k])
  {
    seq(|ids|, k requires 0 <= k < |ids| => NatToString(ids[k]))
  }

  lemma {:induction false} JoinFree(xs: seq<string>, c: char, sep: Sep)
    requires !sep.Has(c)
    requires forall k :: 0 <= k < |xs| ==> FreeOf(xs[k], sep)
    ensures FreeOf(Join(xs, c), sep)
  {
    if |xs| > 1 {
      JoinFree(xs[1..], c, sep);
    }
  }

  /** Writing ids comma-separated and reading the setting back gives exactly those ids. */
  lemma AllowedIdsRoundTrip(ids: seq<nat>)
    requires |ids| >= 1
    ensures AllowedIds(Join(Rendered(ids), ',')) == set k | 0 <= k < |ids| :: ids[k] as int
  {
    var xs := Rendered(ids);
    var raw := Join(xs, ',');
    JoinFree(xs, ',', Exactly(' '));
    WithoutFree(raw, Exactly(' '));
    SplitJoin(xs, ',', Exactly(','));
    forall u | u in AllowedIds(raw) ensures u in set k | 0 <= k < |ids| :: ids[k] as int {
      var p :| p in xs && AllDigits(p) && DigitsValue(p) == u;
      var k :| 0 <= k < |xs| && xs[k] == p;
      assert ids[k] == u;
    }
    forall k | 0 <= k < |ids| ensures ids[k] as int in AllowedIds(raw) {
      assert xs[k] in xs && AllDigits(xs[k]);
    }
  }

  // ===========================================================================
  // chunk_list

  /** The chunks of a list for a positive size: `lst[i:i+size]` for `i` in `range(0, len(lst), size)`. */
  function ChunksOf(lst: seq<string>, size: nat): (r: seq<seq<string>>)
    requires size > 0
    ensures Concat(r) == lst
    ensures forall k :: 0 <= k < |r| ==> 0 < |r[k]| <= size
    ensures forall k :: 0 <= k < |r| - 1 ==> |r[k]| == size
    decreases |lst|
  {
    if lst == [] then []
    else if |lst| <= size then [lst]
    else
      var rest := ChunksOf(lst[size..], size);
      assert lst == lst[..size] + lst[size..];
      [lst[..size]] + rest
  }

  /** There are `ceil(len / size)` chunks. */
  lemma {:induction false} ChunkCount(lst: seq<string>, size: nat)
    requires size > 0
    ensures |ChunksOf(lst, size)| * size >= |lst| > (|ChunksOf(lst, size)| - 1) * size
    decreases |lst|
  {
    if |lst| > size {
      ChunkCount(lst[size..], size);
    }
  }

  /**
   * `chunk_list`: `range` refuses a zero step (ValueError); a negative step
   * yields no chunk at all.
   */
  function Chunks(lst: seq<string>, size: int): (r: Raises<seq<seq<string>>>)
    ensures size == 0 <==> r.Raised?
    ensures size < 0 ==> r == Returns([])
    ensures size > 0 ==> r == Returns(ChunksOf(lst, size))
  {
    if size == 0 then Raised("ValueError")
    else if size < 0 then Returns([])
    else Returns(ChunksOf(lst, size))
  }

  // ===========================================================================
  // Arguments of /check

  /** `s.replace(a, b)` for single characters. */
  function ReplaceChar(s: string, a: char, b: char): (r: string)
    ensures |r| == |s|
    ensures forall i :: 0 <= i < |s| ==> r[i] == (if s[i] == a then b else s[i])
  {
    seq(|s|, i requires 0 <= i < |s| => if s[i] == a then b else s[i])
  }

  /** `[x for x in xs if x.strip()]` */
  function NonBlank(xs: seq<string>): (r: seq<string>)
    ensures |r| <= |xs|
    ensures forall k :: 0 <= k < |r| ==> r[k] in xs && Strip(r[k]) != []
  {
    if xs == [] then []
    else (if Strip(xs[0]) != [] then [xs[0]] else []) + NonBlank(xs[1..])
  }

  /** The tokens of one argument: commas count as spaces. */
  function ArgTokens(arg: string): (r: seq<string>)
  {
    NonBlank(Words(ReplaceChar(arg, ',', ' ')))
  }

  /** `usernames += [...]` over all arguments. */
  function SplitArgs(args: seq<string>): (r: seq<string>)
    ensures forall k :: 0 <= k < |r| ==> r[k] != [] && FreeOf(r[k], Whitespace) && FreeOf(r[k], Exactly(','))
  {
    if args == [] then []
    else
      var t := ArgTokens(args[0]);
      TokensAreClean(args[0]);
      t + SplitArgs(args[1..])
  }

  /** Words are never blank, so the `x.strip()` filter keeps every one. */
  lemma {:induction false} NonBlankKeepsWords(xs: seq<string>)
    requires forall k :: 0 <= k < |xs| ==> xs[k] != [] && FreeOf(xs[k], Whitespace)
    ensures NonBlank(xs) == xs
  {
    if xs != [] {
      assert Strip(xs[0]) != [] by {
        assert !IsSpace(xs[0][0]);
      }
      NonBlankKeepsWords(xs[1..]);
      assert xs == [xs[0]] + xs[1..];
    }
  }

  /** A token is non-empty and holds neither whitespace nor a comma. */
  lemma TokensAreClean(arg: string)
    ensures forall k :: 0 <= k < |ArgTokens(arg)| ==>
      ArgTokens(arg)[k] != [] && FreeOf(ArgTokens(arg)[k], Whitespace) && FreeOf(ArgTokens(arg)[k], Exactly(','))
  {
    var s := ReplaceChar(arg, ',', ' ');
    var w := Words(s);
    NonBlankKeepsWords(w);
    forall k | 0 <= k < |w| ensures FreeOf(w[k], Exactly(',')) {
      var x := w[k];
      forall i | 0 <= i < |x| ensures x[i] != ',' {
        assert !IsSpace(x[i]);
        CharOfWord(s, x, i);
      }
    }
  }

  /** Every character of a word of `s` is a character of `s`. */
  lemma CharOfWord(s: string, x: string, i: nat)
    requires x in Words(s) && i < |x|
    ensures x[i] in s
  {
    SplitOnContent(s, Whitespace);
    ConcatHas(NonEmpty(SplitOn(s, Whitespace)), x, i);
    WithoutSub(s, Whitespace, x[i]);
  }

  /** A character of a piece is a character of the concatenation. */
  lemma {:induction false} ConcatHas(xs: seq<string>, x: string, i: nat)
    requires x in xs && i < |x|
    ensures x[i] in Concat(xs)
  {
    if xs[0] == x {
      assert Concat(xs) == x + Concat(xs[1..]);
      assert Concat(xs)[i] == x[i];
    } else {
      ConcatHas(xs[1..], x, i);
      assert Concat(xs) == xs[0] + Concat(xs[1..]);
    }
  }

  lemma {:induction false} WithoutSub(s: string, sep: Sep, c: char)
    requires c in Without(s, sep)
    ensures c in s
  {
    if s != [] {
      var h := if sep.Has(s[0]) then [] else [s[0]];
      assert Without(s, sep) == h + Without(s[1..], sep);
      if c !in h {
        WithoutSub(s[1..], sep, c);
      }
    }
  }

  /** The tokens spell out the arguments with separators removed, in order. */
  lemma ArgTokensKeepOrder(arg: string)
    ensures Concat(ArgTokens(arg)) == Without(ReplaceChar(arg, ',', ' '), Whitespace)
  {
    var s := ReplaceChar(arg, ',', ' ');
    TokensAreClean(arg);
    NonBlankKeepsWords(Words(s));
    SplitOnContent(s, Whitespace);
  }

  // ===========================================================================
  // Bulk cap

  /** Python's `xs[:m]`, negative `m` counting from the end. */
  function Prefix(xs: seq<string>, m: int): (r: seq<string>)
    ensures |r| <= |xs| && r == xs[..|r|]
    ensures m >= 0 ==> |r| == (if m < |xs| then m else |xs|)
    ensures m < 0 ==> |r| == (if |xs| + m > 0 then |xs| + m else 0)
  {
    var n := if m >= 0 then (if m < |xs| then m else |xs|) else (if |xs| + m > 0 then |xs| + m else 0);
    xs[..n]
  }

  /** Keep at most `maxBulk` handles: a longer list is cut to its first `maxBulk`. */
  function CapBulk(names: seq<string>, maxBulk: int): (r: seq<string>)
    ensures |r| <= |names| && r == names[..|r|]
    ensures |names| <= maxBulk ==> r == names
    ensures 0 <= maxBulk < |names| ==> |r| == maxBulk
    ensures maxBulk < 0 ==> |r| == (if |names| + maxBulk > 0 then |names| + maxBulk else 0)
  {
    if |names| > maxBulk then Prefix(names, maxBulk) else names
  }

  // ===========================================================================
  // Uploaded file

  /**
   * `[line.strip() for line in text.splitlines() if line.strip()]`. Splitting
   * at every line-break character differs from `splitlines` only in the empty
   * pieces it makes (between `\r` and `\n`, after a final break), and those
   * are dropped as blank.
   */
  function ParseUpload(text: string): (r: seq<string>)
    ensures forall k :: 0 <= k < |r| ==> CleanLine(r[k])
  {
    StrippedLines(SplitOn(text, LineBreaks))
  }

  /** What one line contributes: its strip, unless that is empty. */
  function StrippedLine(x: string): seq<string>
  {
    if Strip(x) != [] then [Strip(x)] else []
  }

  /** No line contains a line break. */
  predicate LinesFree(ls: seq<string>)
  {
    forall k :: 0 <= k < |ls| ==> FreeOf(ls[k], LineBreaks)
  }

  function StrippedLines(lines: seq<string>): (r: seq<string>)
    requires LinesFree(lines)
    ensures |r| <= |lines|
    ensures forall k :: 0 <= k < |r| ==> CleanLine(r[k])
  {
    if lines == [] then []
    else
      StripOfLine(lines[0]);
      StrippedLine(lines[0]) + StrippedLines(lines[1..])
  }

  /** A non-empty, break-free line with no whitespace at either end. */
  predicate CleanLine(x: string)
  {
    x != [] && FreeOf(x, LineBreaks) && !IsSpace(x[0]) && !IsSpace(x[|x| - 1])
  }

  /** Stripping a line-break-free string gives a trimmed, line-break-free string. */
  lemma StripOfLine(x: string)
    requires FreeOf(x, LineBreaks)
    ensures Strip(x) != [] ==> CleanLine(Strip(x))
  {
    var p := StripBounds(x);
    forall i | 0 <= i < |Strip(x)| ensures !IsLineBreak(Strip(x)[i]) {
      assert Strip(x)[i] == x[p.0 + i];
    }
  }

  /** Reading the lines of `a` and then of `b` is reading the lines of `a + b`. */
  lemma {:induction false} StrippedLinesAppend(a: seq<string>, b: seq<string>)
    requires LinesFree(a) && LinesFree(b)
    ensures LinesFree(a + b)
    ensures StrippedLines(a + b) == StrippedLines(a) + StrippedLines(b)
  {
    LinesFreeAppend(a, b);
    if a == [] {
      assert a + b == b;
    } else {
      assert (a + b)[0] == a[0];
      assert (a + b)[1..] == a[1..] + b;
      StrippedLinesAppend(a[1..], b);
      assert StrippedLines(a + b) == StrippedLine(a[0]) + StrippedLines(a[1..] + b);
    }
  }

  /** One line gives its strip, or nothing when it is blank. */
  lemma StrippedLinesOne(x: string)
    requires FreeOf(x, LineBreaks)
    ensures Strip(x) != [] ==> StrippedLines([x]) == [Strip(x)]
    ensures Strip(x) == [] ==> StrippedLines([x]) == []
  {
    assert [x][1..] == [];
  }

  /**
   * The file read line by line: the strips of the lines, blank lines
   * dropped, in file order.
   */
  lemma ParseUploadLines(lines: seq<string>)
    requires |lines| >= 1
    requires LinesFree(lines)
    ensures ParseUpload(Join(lines, '\n')) == StrippedLines(lines)
  {
    SplitJoin(lines, '\n', LineBreaks);
  }

  /** A line whose strip is empty, such as "  \t", contributes nothing wherever it sits. */
  lemma BlankLineDropped(a: seq<string>, x: string, b: seq<string>)
    requires LinesFree(a) && LinesFree(b)
    requires FreeOf(x, LineBreaks) && Strip(x) == []
    ensures LinesFree(a + [x] + b)
    ensures StrippedLines(a + [x] + b) == StrippedLines(a) + StrippedLines(b)
  {
    var ax := a + [x];
    StrippedLinesAppend(a, [x]);
    StrippedLinesAppend(ax, b);
    StrippedLinesOne(x);
    assert StrippedLines(ax) == StrippedLines(a) + [];
    assert StrippedLines(a) + [] == StrippedLines(a);
  }

  lemma LinesFreeAppend(a: seq<string>, b: seq<string>)
    requires LinesFree(a) && LinesFree(b)
    ensures LinesFree(a + b)
  {
    forall k | 0 <= k < |a + b| ensures FreeOf((a + b)[k], LineBreaks) {
      if k < |a| { assert (a + b)[k] == a[k]; } else { assert (a + b)[k] == b[k - |a|]; }
    }
  }

  /** Writing clean lines one per line and reading the file back gives the same lines. */
  lemma UploadRoundTrip(names: seq<string>)
    requires |names| >= 1
    requires forall k :: 0 <= k < |names| ==> CleanLine(names[k])
    ensures ParseUpload(Join(names, '\n')) == names
  {
    SplitJoin(names, '\n', LineBreaks);
    StrippedLinesKeepsClean(names);
  }

  lemma {:induction false} StrippedLinesKeepsClean(names: seq<string>)
    requires forall k :: 0 <= k < |names| ==> names[k] != [] && FreeOf(names[k], LineBreaks)
    requires forall k :: 0 <= k < |names| ==> !IsSpace(names[k][0]) && !IsSpace(names[k][|names[k]| - 1])
    ensures StrippedLines(names) == names
  {
    if names != [] {
      StripTrimmed(names[0]);
      StrippedLinesKeepsClean(names[1..]);
      assert names == [names[0]] + names[1..];
    }
  }

  // ===========================================================================
  // The reply

  datatype Document = Document(fileName: string, text: string)

  datatype Summary = Summary(live: nat, banned: nat, errors: nat, documents: seq<Document>)

  /** One document for a bucket, when it is non-empty. */
  function DocumentFor(fileName: string, bucket: seq<string>): (r: seq<Document>)
    ensures |r| == (if bucket == [] then 0 else 1)
    ensures bucket != [] ==> r[0] == Document(fileName, Join(bucket, '\n'))
  {
    if bucket == [] then [] else [Document(fileName, Join(bucket, '\n'))]
  }

  /**
   * `_respond_with_results`: the three counts, then live.txt, banned.txt and
   * errors.txt in that order, each only when its bucket is non-empty, one
   * handle per line.
   */
  function Respond(b: Buckets): (r: Summary)
    ensures r.live == |b.live| && r.banned == |b.banned| && r.errors == |b.error|
    ensures r.documents == DocumentFor("live.txt", b.live) + DocumentFor("banned.txt", b.banned) + DocumentFor("errors.txt", b.error)
    ensures |r.documents| <= 3
  {
    Summary(|b.live|, |b.banned|, |b.error|,
      DocumentFor("live.txt", b.live) + DocumentFor("banned.txt", b.banned) + DocumentFor("errors.txt", b.error))
  }

  /** A handle is a clean line. */
  lemma HandleIsCleanLine(x: string)
    requires x != [] && IsHandle(x)
    ensures CleanLine(x)
  {
    forall i | 0 <= i < |x| ensures !IsLineBreak(x[i]) {
      HandleCharIsNotSpace(x[i]);
    }
  }

  /** Uploading a result document again yields exactly its bucket. */
  lemma DocumentReadsBack(fileName: string, bucket: seq<string>)
    requires bucket != []
    requires forall k :: 0 <= k < |bucket| ==> bucket[k] != [] && IsHandle(bucket[k])
    ensures ParseUpload(DocumentFor(fileName, bucket)[0].text) == bucket
  {
    forall k | 0 <= k < |bucket| ensures CleanLine(bucket[k]) {
      HandleIsCleanLine(bucket[k]);
    }
    UploadRoundTrip(bucket);
  }

  // ===========================================================================
  // The two entry points

  datatype BulkReply =
    | Denied
    | NoToken
    | Usage
    | NotText
    | EmptyFile
    | Results(capped: bool, summary: Summary)

  /** Check a capped list with the simple checker and build the reply. */
  function Run(names: seq<string>, maxBulk: int, fetch: (string, nat) -> Reply): (r: BulkReply)
    ensures r.Results?
    ensures r.capped <==> |names| > maxBulk
    ensures r.summary == Respond(Checker.CheckMany(CapBulk(names, maxBulk), fetch))
  {
    var kept := CapBulk(names, maxBulk);
    Results(|names| > maxBulk, Respond(Checker.CheckMany(kept, fetch)))
  }

  /** `/check name ...`: refuse without permission or token, need at least one token, then run. */
  function CheckCmd(authorized: bool, hasToken: bool, args: seq<string>, maxBulk: int, fetch: (string, nat) -> Reply): (r: BulkReply)
    ensures !authorized ==> r == Denied
    ensures authorized && !hasToken ==> r == NoToken
    ensures authorized && hasToken ==> (r == Usage <==> SplitArgs(args) == [])
    ensures authorized && hasToken && SplitArgs(args) != [] ==> r == Run(SplitArgs(args), maxBulk, fetch)
    ensures r.Results? ==> r == Run(SplitArgs(args), maxBulk, fetch)
  {
    if !authorized then Denied
    else if !hasToken then NoToken
    else
      var names := SplitArgs(args);
      if names == [] then Usage else Run(names, maxBulk, fetch)
  }

  predicate EndsWith(s: string, suffix: string)
  {
    |suffix| <= |s| && s[|s| - |suffix|..] == suffix
  }

  /** An uploaded file: it must end in `.txt` (any case); its non-blank lines are checked. No token is asked for. */
  function HandleFile(authorized: bool, fileName: string, text: string, maxBulk: int, fetch: (string, nat) -> Reply): (r: BulkReply)
    ensures !authorized ==> r == Denied
    ensures authorized && !EndsWith(Lower(fileName), ".txt") ==> r == NotText
    ensures r == EmptyFile <==> authorized && EndsWith(Lower(fileName), ".txt") && ParseUpload(text) == []
    ensures authorized && EndsWith(Lower(fileName), ".txt") && ParseUpload(text) != [] ==> r == Run(ParseUpload(text), maxBulk, fetch)
    ensures r.Results? ==> r == Run(ParseUpload(text), maxBulk, fetch)
  {
    if !authorized then Denied
    else if !EndsWith(Lower(fileName), ".txt") then NotText
    else
      var names := ParseUpload(text);
      if names == [] then EmptyFile else Run(names, maxBulk, fetch)
  }

  /** The three counts add up to the number of kept handles that normalize to something. */
  lemma CountsAddUp(names: seq<string>, maxBulk: int, fetch: (string, nat) -> Reply)
    ensures var s := Run(names, maxBulk, fetch).summary;
      s.live + s.banned + s.errors == |Checker.Items(CapBulk(names, maxBulk))|
  {
    var b := Checker.CheckMany(CapBulk(names, maxBulk), fetch);
    assert |b.All()| == |b.live| + |b.banned| + |b.error|;
  }
}
