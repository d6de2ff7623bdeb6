/** `parsePixivCommand` and `clamp` (src/pixiv/command-parser.js): a
    `/pixiv …` line becomes one command. The line is normalised and split
    into tokens; the first argument picks a subcommand (`last`, `rerun`,
    `fav`, `verbose`, `preset`); otherwise the flags are collected, the flag
    tokens and their arguments are removed, and what is left is an author
    lookup, a ranking or a keyword search. */
module CommandParser {
  import opened Text
  import opened JsNumber

  datatype Flags = Flags(nsfw: bool, noHq: bool)

  datatype Range = Range(start: nat, end: nat)

  /** The objects the parser returns. Counts that pass through `clamp` are
      reals (`Number` of a token); a missing property and `null` are both
      None, except for the two shapes of `favList`. */
  datatype Command =
    | Last
    | Rerun(rerunCount: Option<nat>)
    | FavAdd
    | FavList(tag: Option<string>)
      /** `{ type: 'favList' }`, without a `tag` property: an unknown `fav` subcommand. */
    | FavListBare
    | FavSend(favCount: nat, tag: Option<string>)
    | FavRemove(id: string)
    | FavTag(id: string, tags: seq<string>)
    | Verbose(enabled: Option<bool>)
    | PresetSave(name: string, template: string)
    | PresetRun(name: string, runCount: Option<nat>)
    | PresetDelete(name: string)
    | PresetList
    | AuthorPick(flags: Flags, uid: string, count: real, years: Option<nat>, alltime: bool)
    | Author(flags: Flags, count: real, author: string, years: Option<nat>, alltime: bool)
    | Rank(flags: Flags, count: real, mode: string)
    | Search(flags: Flags, count: real, range: Option<Range>, keyword: string,
             minBookmark: Option<nat>, ratio: Option<string>, qualityMode: Option<string>,
             countFirst: bool, qualityFirst: bool)

  const DefaultKeyword := "\U{30AA}\U{30EA}\U{30B8}\U{30CA}\U{30EB}"
  const RankModes := ["daily", "weekly", "monthly", "all"]
  const QualityModes := {"users", "bookmark", "hybrid"}
  const BoolFlags := ["--nsfw", "--nohq", "--no-hq", "--alltime", "--count_first", "--count-first", "--quality_first", "--quality-first"]
  const FullwidthSolidus := '\U{FF0F}'

  // ---------------------------------------------------------------- tokens

  predicate IsZeroWidth(c: char) {
    '\U{200B}' <= c <= '\U{200D}' || c == '\U{FEFF}'
  }

  predicate Normalized(c: char) {
    !IsZeroWidth(c) && c != FullwidthSolidus
  }

  /** The two `replace` calls: a fullwidth solidus becomes `/`, zero-width
      characters and the byte-order mark disappear. */
  function Normalize(s: string): (r: string)
    ensures |r| <= |s|
    ensures forall i :: 0 <= i < |r| ==> Normalized(r[i])
  {
    if |s| == 0 then ""
    else (if s[0] == FullwidthSolidus then "/" else if IsZeroWidth(s[0]) then "" else [s[0]]) + Normalize(s[1..])
  }

  /** The replacement of one character: a fullwidth solidus gives `/`, a
      zero-width character or byte-order mark gives nothing, and any other
      character is kept. */
  function NormalizeChar(c: char): string {
    if c == FullwidthSolidus then "/" else if IsZeroWidth(c) then "" else [c]
  }

  /** Normalisation works character by character: each character is
      replaced by `NormalizeChar` of it, independently of its neighbours. */
  lemma {:induction false} NormalizeAppend(a: string, b: string)
    ensures Normalize(a + b) == Normalize(a) + Normalize(b)
    decreases |a|
  {
    if |a| == 0 {
      assert a + b == b;
    } else {
      assert (a + b)[0] == a[0] && (a + b)[1..] == a[1..] + b;
      NormalizeAppend(a[1..], b);
    }
  }

  lemma NormalizeOne(c: char)
    ensures Normalize([c]) == NormalizeChar(c)
  {
    assert [c][1..] == "";
  }

  /** Normalising a line with a character `c` in it puts `NormalizeChar(c)`
      in place of `c`. */
  lemma NormalizeAround(a: string, c: char, b: string)
    ensures Normalize(a + [c] + b) == Normalize(a) + NormalizeChar(c) + Normalize(b)
  {
    NormalizeAppend(a + [c], b);
    NormalizeAppend(a, [c]);
    NormalizeOne(c);
  }

  /** `／pixiv` is read as `/pixiv`. */
  lemma FullwidthCommand()
    ensures Normalize([FullwidthSolidus] + "pixiv") == "/pixiv"
  {
    NormalizeAround([], FullwidthSolidus, "pixiv");
    NormalizePlain("pixiv");
    assert [] + [FullwidthSolidus] + "pixiv" == [FullwidthSolidus] + "pixiv";
  }

  /** A line with nothing to normalise is left as it is. */
  lemma {:induction false} NormalizePlain(s: string)
    requires forall i :: 0 <= i < |s| ==> Normalized(s[i])
    ensures Normalize(s) == s
  {
    if |s| > 0 {
      NormalizePlain(s[1..]);
      assert s == [s[0]] + s[1..];
    }
  }

  /** `trim().split(/\s+/).filter(Boolean)`; the final `map(trim)` changes
      nothing, as `TokensSound` shows. */
  function Tokens(cmdText: string): seq<string> {
    Fields(Normalize(cmdText), IsSpace)
  }

  /** `parts.slice(1)`: everything after `/pixiv`. */
  function Args(cmdText: string): seq<string> {
    var parts := Tokens(cmdText);
    if |parts| == 0 then [] else parts[1..]
  }

  lemma {:induction false} FieldsKeep(s: string, sep: char -> bool, p: char -> bool)
    requires forall i :: 0 <= i < |s| ==> p(s[i])
    ensures forall k, i :: 0 <= k < |Fields(s, sep)| && 0 <= i < |Fields(s, sep)[k]| ==> p(Fields(s, sep)[k][i])
    decreases |s|
  {
    if |s| > 0 {
      if sep(s[0]) {
        FieldsKeep(s[1..], sep, p);
      } else {
        var n := FieldLength(s, sep);
        FieldsKeep(s[n..], sep, p);
        assert Fields(s, sep) == [s[..n]] + Fields(s[n..], sep);
      }
    }
  }

  /** Every token is non-empty, holds no whitespace, no zero-width
      character and no fullwidth solidus, and is its own trim. */
  lemma TokensSound(cmdText: string)
    ensures forall k :: 0 <= k < |Tokens(cmdText)| ==>
      Tokens(cmdText)[k] != "" && NoSpace(Tokens(cmdText)[k]) && Trim(Tokens(cmdText)[k]) == Tokens(cmdText)[k]
    ensures forall k, i :: 0 <= k < |Tokens(cmdText)| && 0 <= i < |Tokens(cmdText)[k]| ==> Normalized(Tokens(cmdText)[k][i])
    ensures Concat(Tokens(cmdText)) == Unseparated(Normalize(cmdText), IsSpace)
  {
    var s := Normalize(cmdText);
    FieldsSound(s, IsSpace);
    FieldsKeep(s, IsSpace, Normalized);
    forall k | 0 <= k < |Tokens(cmdText)| ensures Trim(Tokens(cmdText)[k]) == Tokens(cmdText)[k] {
      TrimNoSpace(Tokens(cmdText)[k]);
    }
  }

  /** `args[i] || ''` */
  function Arg(xs: seq<string>, i: int): string {
    if 0 <= i < |xs| then xs[i] else ""
  }

  /** `xs[i]`, None standing for `undefined`. */
  function Opt(xs: seq<string>, i: int): Option<string> {
    if 0 <= i < |xs| then Some(xs[i]) else None
  }

  /** `xs.slice(n)` */
  function Slice(xs: seq<string>, n: nat): seq<string> {
    if n <= |xs| then xs[n..] else []
  }

  function Head(args: seq<string>): string {
    Lower(Arg(args, 0))
  }

  function MaxNat(a: nat, b: nat): nat {
    if a >= b then a else b
  }

  // ------------------------------------------------------------- patterns

  /** `/^\d+:\d+$/` */
  predicate IsRatioText(s: string) {
    var k := IndexOf(s, ':');
    k < |s| && IsDigits(s[..k]) && IsDigits(s[k + 1..])
  }

  /** `/^\d+-\d+$/` */
  predicate IsRangeText(s: string) {
    var k := IndexOf(s, '-');
    k < |s| && IsDigits(s[..k]) && IsDigits(s[k + 1..])
  }

  /** `/^(users|bookmark|hybrid)$/i` */
  predicate IsModeName(s: string) {
    EqualsIgnoreCase(s, "users") || EqualsIgnoreCase(s, "bookmark") || EqualsIgnoreCase(s, "hybrid")
  }

  /** `/^--name=\d+$/i` */
  predicate DigitsEq(x: string, name: string) {
    StartsIgnoreCase(x, name + "=") && IsDigits(x[|name| + 1..])
  }

  /** `/^--ratio=\d+:\d+$/i` */
  predicate RatioEq(x: string) {
    StartsIgnoreCase(x, "--ratio=") && IsRatioText(x[8..])
  }

  /** `/^--mode=(users|bookmark|hybrid)$/i` */
  predicate ModeEq(x: string) {
    StartsIgnoreCase(x, "--mode=") && IsModeName(x[7..])
  }

  /** A numeric flag at `j` in either spelling: `--name=N`, or `--name`
      followed by a digit token. */
  predicate DigitFlagAt(args: seq<string>, j: nat, name: string)
    requires j < |args|
  {
    DigitsEq(args[j], name) || (EqualsIgnoreCase(args[j], name) && IsDigits(Arg(args, j + 1)))
  }

  /** `Number(t.split('=')[1])` or `Number(args[i + 1])`. */
  function DigitFlagValue(args: seq<string>, j: nat, name: string): nat
    requires j < |args| && DigitFlagAt(args, j, name)
  {
    if DigitsEq(args[j], name) then DigitsValue(args[j][|name| + 1..]) else DigitsValue(args[j + 1])
  }

  /** The value of the last occurrence of a numeric flag among the first
      `n` arguments, as a loop that keeps reassigning it leaves it. */
  function DigitFlagUpTo(args: seq<string>, n: nat, name: string): Option<nat>
    requires n <= |args|
  {
    if n == 0 then None
    else if DigitFlagAt(args, n - 1, name) then Some(DigitFlagValue(args, n - 1, name))
    else DigitFlagUpTo(args, n - 1, name)
  }

  /** The scan finds a value exactly when the flag occurs. */
  lemma {:induction false} FlagFound(args: seq<string>, n: nat, name: string)
    requires n <= |args|
    ensures DigitFlagUpTo(args, n, name).Some? <==> exists j :: 0 <= j < n && DigitFlagAt(args, j, name)
  {
    if n > 0 {
      FlagFound(args, n - 1, name);
      if !DigitFlagAt(args, n - 1, name) {
        assert DigitFlagUpTo(args, n, name) == DigitFlagUpTo(args, n - 1, name);
        forall j | 0 <= j < n && DigitFlagAt(args, j, name) ensures j < n - 1 {
        }
      }
    }
  }

  /** The last occurrence wins: the value found is that of the last
      occurrence of the flag. */
  lemma {:induction false} LastFlagWins(args: seq<string>, n: nat, name: string)
    requires n <= |args|
    ensures forall j :: (0 <= j < n && DigitFlagAt(args, j, name) && (forall k :: j < k < n ==> !DigitFlagAt(args, k, name))
      ==> DigitFlagUpTo(args, n, name) == Some(DigitFlagValue(args, j, name)))
  {
    if n > 0 {
      LastFlagWins(args, n - 1, name);
      if DigitFlagAt(args, n - 1, name) {
        forall j | 0 <= j < n && DigitFlagAt(args, j, name) && (forall k :: j < k < n ==> !DigitFlagAt(args, k, name))
          ensures j == n - 1
        {
        }
      } else {
        assert DigitFlagUpTo(args, n, name) == DigitFlagUpTo(args, n - 1, name);
      }
    }
  }

  // --------------------------------------------------------------- clamp

  /** `Number(v)`, None standing for `undefined`. */
  function NumberOf(v: Option<string>): Number {
    if v.Some? then ToNumber(v.value) else NaN
  }

  /** What `clamp(v, d, min, max)` returns for `n = Number(v)`: a
      non-finite number is replaced by the default, then the value is raised
      to `min` and lowered to `max`. */
  function ClampOf(x: Number, d: real, min: real, max: real): (r: real)
    ensures min <= max ==> min <= r <= max
    ensures x.Finite? && min <= x.value <= max ==> r == x.value
    ensures x.Finite? && x.value < min && min <= max ==> r == min
    ensures x.Finite? && x.value > max && min <= max ==> r == max
    ensures !x.Finite? && min <= d <= max ==> r == d
  {
    var n := if x.Finite? then x.value else d;
    var low := if n < min then min else n;
    if low > max then max else low
  }

  /** `clamp(v, d, min, max)` */
  method Clamp(v: Option<string>, d: real, min: real, max: real) returns (n: real)
    ensures n == ClampOf(NumberOf(v), d, min, max)
  {
    var x := NumberOf(v);
    n := if x.Finite? then x.value else d;
    if n < min {
      n := min;
    }
    if n > max {
      n := max;
    }
  }

  /** A digit token clamps to its value when that lies in range. */
  lemma ClampDigits(s: string)
    requires IsDigits(s) && 1 <= DigitsValue(s) <= 20
    ensures NumberOf(Some(s)) == Finite(DigitsValue(s) as real)
    ensures ClampOf(NumberOf(Some(s)), 5.0, 1.0, 20.0) == DigitsValue(s) as real
  {
    DigitsNumber(s);
  }

  /** A missing count is the default. */
  lemma ClampMissing(d: real, min: real, max: real)
    requires min <= d <= max
    ensures ClampOf(NumberOf(None), d, min, max) == d
  {
  }

  // ---------------------------------------------------- simple subcommands

  /** Index of the first `--tag` argument, or `|args|`. */
  function IndexOfTag(args: seq<string>): (i: nat)
    ensures i <= |args| && (i < |args| ==> args[i] == "--tag")
    ensures forall j :: 0 <= j < i ==> args[j] != "--tag"
  {
    if |args| == 0 || args[0] == "--tag" then 0 else 1 + IndexOfTag(args[1..])
  }

  /** The trimmed token after the first `--tag`, null when there is none or
      it is empty. */
  function TagAfter(args: seq<string>): (t: Option<string>)
    ensures !("--tag" in args) ==> t.None?
    ensures forall i :: 0 <= i < |args| && args[i] == "--tag" && "--tag" !in args[..i] ==>
      t == (if Trim(Arg(args, i + 1)) == "" then None else Some(Trim(Arg(args, i + 1))))
  {
    var i := IndexOfTag(args);
    if i == |args| then
      assert forall j :: 0 <= j < |args| ==> args[j] != "--tag";
      None
    else
      FirstTagIndex(args);
      var t := Trim(Arg(args, i + 1));
      if t == "" then None else Some(t)
  }

  /** A `--tag` with none before it is the one `IndexOfTag` finds. */
  lemma FirstTagIndex(args: seq<string>)
    ensures forall j :: 0 <= j < |args| && args[j] == "--tag" && "--tag" !in args[..j] ==> j == IndexOfTag(args)
  {
    forall j | 0 <= j < |args| && args[j] == "--tag" && "--tag" !in args[..j]
      ensures j == IndexOfTag(args)
    {
      assert forall k :: 0 <= k < j ==> args[..j][k] == args[k];
    }
  }

  /** The first of several `--tag` flags is the one that counts. */
  lemma FirstTagWins()
    ensures TagAfter(["fav", "list", "--tag", "a", "--tag", "b"]) == Some("a")
  {
    var args := ["fav", "list", "--tag", "a", "--tag", "b"];
    assert IndexOfTag(args) == 2 by {
      assert args[1..] == ["list", "--tag", "a", "--tag", "b"];
      assert args[1..][1..] == ["--tag", "a", "--tag", "b"];
    }
    assert Arg(args, 3) == "a";
    TrimUnchanged("a");
  }

  /** `/[，,\s]+/`, the separators of `fav tag`. */
  predicate IsTagSeparator(c: char) {
    c == '\U{FF0C}' || c == ',' || IsSpace(c)
  }

  function FavCommand(args: seq<string>): Command {
    var sub := Lower(if |args| > 1 then args[1] else "list");
    if sub == "add" then FavAdd
    else if sub == "list" then FavList(TagAfter(args))
    else if sub == "send" then
      var count: nat := if IsDigits(Arg(args, 2)) then DigitsValue(Arg(args, 2)) else 5;
      FavSend(MaxNat(1, Min(20, count)), TagAfter(args))
    else if sub == "remove" || sub == "rm" || sub == "del" then FavRemove(Trim(Arg(args, 2)))
    else if sub == "tag" then FavTag(Trim(Arg(args, 2)), Fields(Join(Slice(args, 3), " "), IsTagSeparator))
    else FavListBare
  }

  function PresetCommand(args: seq<string>): Command {
    var sub := Lower(if |args| > 1 then args[1] else "list");
    if sub == "save" then PresetSave(Trim(Arg(args, 2)), Trim(Join(Slice(args, 3), " ")))
    else if sub == "run" then
      PresetRun(Trim(Arg(args, 2)), if IsDigits(Arg(args, 3)) then Some(DigitsValue(Arg(args, 3))) else None)
    else if sub == "delete" || sub == "del" || sub == "rm" then PresetDelete(Trim(Arg(args, 2)))
    else PresetList
  }

  function VerboseMode(arg: string): Option<bool> {
    var mode := Lower(arg);
    if mode == "on" then Some(true) else if mode == "off" then Some(false) else None
  }

  /** The subcommands decided by the first argument alone. */
  function SimpleCommand(args: seq<string>): (r: Option<Command>)
    ensures r.None? <==> Head(args) !in {"last", "rerun", "fav", "verbose", "preset"}
    ensures Head(args) == "last" ==> r == Some(Last)
  {
    var head := Head(args);
    if head == "last" then Some(Last)
    else if head == "rerun" then Some(Rerun(if IsDigits(Arg(args, 1)) then Some(DigitsValue(Arg(args, 1))) else None))
    else if head == "fav" then Some(FavCommand(args))
    else if head == "verbose" then Some(Verbose(VerboseMode(Arg(args, 1))))
    else if head == "preset" then Some(PresetCommand(args))
    else None
  }

  /** `rerun` takes a count only from an all-digit argument. */
  lemma RerunCount(args: seq<string>)
    requires Head(args) == "rerun"
    ensures SimpleCommand(args).Some? && SimpleCommand(args).value.Rerun?
    ensures SimpleCommand(args).value.rerunCount.Some? <==> IsDigits(Arg(args, 1))
    ensures IsDigits(Arg(args, 1)) ==> SimpleCommand(args).value.rerunCount == Some(DigitsValue(Arg(args, 1)))
  {
  }

  /** `preset run` takes a count only from an all-digit fourth argument. */
  lemma PresetRunCount(args: seq<string>)
    requires Head(args) == "preset" && |args| > 1 && Lower(args[1]) == "run"
    ensures SimpleCommand(args).Some? && SimpleCommand(args).value.PresetRun?
    ensures SimpleCommand(args).value.name == Trim(Arg(args, 2))
    ensures SimpleCommand(args).value.runCount.Some? <==> IsDigits(Arg(args, 3))
    ensures IsDigits(Arg(args, 3)) ==> SimpleCommand(args).value.runCount == Some(DigitsValue(Arg(args, 3)))
  {
  }

  /** `fav send` sends between 1 and 20 images, 5 unless a digit count is
      given, and the given count when it is in range. */
  lemma FavSendCount(args: seq<string>)
    requires FavCommand(args).FavSend?
    ensures 1 <= FavCommand(args).favCount <= 20
    ensures !IsDigits(Arg(args, 2)) ==> FavCommand(args).favCount == 5
    ensures IsDigits(Arg(args, 2)) && 1 <= DigitsValue(Arg(args, 2)) <= 20 ==> FavCommand(args).favCount == DigitsValue(Arg(args, 2))
    ensures FavCommand(args).tag == TagAfter(args)
  {
  }

  /** `verbose on` and `verbose off` in any letter case; anything else is
      null. */
  lemma VerboseMapping(arg: string)
    ensures VerboseMode(arg) == Some(true) <==> Lower(arg) == "on"
    ensures VerboseMode(arg) == Some(false) <==> Lower(arg) == "off"
    ensures VerboseMode(arg).None? <==> Lower(arg) != "on" && Lower(arg) != "off"
  {
  }

  /** Every tag of `fav tag` is non-empty and free of separators. */
  lemma FavTagsClean(args: seq<string>)
    requires FavCommand(args).FavTag?
    ensures forall k :: 0 <= k < |FavCommand(args).tags| ==>
      FavCommand(args).tags[k] != "" && forall i :: 0 <= i < |FavCommand(args).tags[k]| ==> !IsTagSeparator(FavCommand(args).tags[k][i])
  {
    var text := Join(Slice(args, 3), " ");
    FavTagsAre(args);
    FieldsSound(text, IsTagSeparator);
  }

  /** The tags of `fav tag` are the fields of the arguments after the id. */
  lemma FavTagsAre(args: seq<string>)
    requires FavCommand(args).FavTag?
    ensures FavCommand(args).tags == Fields(Join(Slice(args, 3), " "), IsTagSeparator)
  {
  }

  // ------------------------------------------------------ flag collection

  datatype Filters = Filters(minBookmark: Option<nat>, ratio: Option<string>, qualityMode: Option<string>)

  /** One pass of the filter loop at index `i`. */
  function FilterStep(f: Filters, args: seq<string>, i: nat): Filters
    requires i < |args|
  {
    var t := args[i];
    var next := Arg(args, i + 1);
    if DigitFlagAt(args, i, "--min_bookmark") then f.(minBookmark := Some(DigitFlagValue(args, i, "--min_bookmark")))
    else if RatioEq(t) then f.(ratio := Some(t[8..]))
    else if EqualsIgnoreCase(t, "--ratio") && IsRatioText(next) then f.(ratio := Some(next))
    else if ModeEq(t) then f.(qualityMode := Some(Lower(t[7..])))
    else if EqualsIgnoreCase(t, "--mode") && IsModeName(next) then f.(qualityMode := Some(Lower(next)))
    else f
  }

  function FiltersUpTo(args: seq<string>, n: nat): Filters
    requires n <= |args|
  {
    if n == 0 then Filters(None, None, None) else FilterStep(FiltersUpTo(args, n - 1), args, n - 1)
  }

  /** The search-filter loop. */
  method ScanFilters(args: seq<string>) returns (minBookmark: Option<nat>, ratio: Option<string>, qualityMode: Option<string>)
    ensures Filters(minBookmark, ratio, qualityMode) == FiltersUpTo(args, |args|)
  {
    minBookmark, ratio, qualityMode := None, None, None;
    var i := 0;
    while i < |args|
      invariant 0 <= i <= |args|
      invariant Filters(minBookmark, ratio, qualityMode) == FiltersUpTo(args, i)
    {
      var t := args[i];
      var next := Arg(args, i + 1);
      if DigitsEq(t, "--min_bookmark") {
        minBookmark := Some(DigitsValue(t[15..]));
      } else if EqualsIgnoreCase(t, "--min_bookmark") && IsDigits(next) {
        minBookmark := Some(DigitsValue(next));
      } else if RatioEq(t) {
        ratio := Some(t[8..]);
      } else if EqualsIgnoreCase(t, "--ratio") && IsRatioText(next) {
        ratio := Some(next);
      } else if ModeEq(t) {
        qualityMode := Some(Lower(t[7..]));
      } else if EqualsIgnoreCase(t, "--mode") && IsModeName(next) {
        qualityMode := Some(Lower(next));
      }
      i := i + 1;
    }
  }

  /** The minimum bookmark count is the last `--min_bookmark` given. */
  lemma {:induction false} MinBookmarkIsLastFlag(args: seq<string>, n: nat)
    requires n <= |args|
    ensures FiltersUpTo(args, n).minBookmark == DigitFlagUpTo(args, n, "--min_bookmark")
  {
    if n > 0 {
      MinBookmarkIsLastFlag(args, n - 1);
      UpToMinBookmark(args, n);
    }
  }

  lemma UpToMinBookmark(args: seq<string>, n: nat)
    requires 0 < n <= |args|
    ensures FiltersUpTo(args, n).minBookmark ==
      if DigitFlagAt(args, n - 1, "--min_bookmark") then Some(DigitFlagValue(args, n - 1, "--min_bookmark"))
      else FiltersUpTo(args, n - 1).minBookmark
  {
    StepMinBookmark(FiltersUpTo(args, n - 1), args, n - 1);
  }

  /** One pass sets the minimum bookmark count only at a `--min_bookmark`
      flag. */
  lemma StepMinBookmark(f: Filters, args: seq<string>, i: nat)
    requires i < |args|
    ensures FilterStep(f, args, i).minBookmark ==
      if DigitFlagAt(args, i, "--min_bookmark") then Some(DigitFlagValue(args, i, "--min_bookmark")) else f.minBookmark
  {
  }

  /** A case-insensitive match of a keyword without KELVIN SIGN lowercases
      to the keyword. */
  lemma FoldLower(s: string, lower: string)
    requires EqualsIgnoreCase(s, lower)
    requires forall i :: 0 <= i < |lower| ==> lower[i] != '\U{212A}'
    ensures Lower(s) == lower
  {
    forall i | 0 <= i < |s| ensures Lower(s)[i] == lower[i] {
      assert FoldChar(s[i]) == lower[i];
    }
  }

  lemma ModeLower(s: string)
    requires IsModeName(s)
    ensures Lower(s) in QualityModes
  {
    if EqualsIgnoreCase(s, "users") {
      FoldLower(s, "users");
    } else if EqualsIgnoreCase(s, "bookmark") {
      FoldLower(s, "bookmark");
    } else {
      FoldLower(s, "hybrid");
    }
  }

  /** A ratio filter is always `digits:digits` and a quality mode always
      one of users, bookmark, hybrid in lower case. */
  lemma {:induction false} FiltersShape(args: seq<string>, n: nat)
    requires n <= |args|
    ensures FiltersUpTo(args, n).ratio.Some? ==> IsRatioText(FiltersUpTo(args, n).ratio.value)
    ensures FiltersUpTo(args, n).qualityMode.Some? ==> FiltersUpTo(args, n).qualityMode.value in QualityModes
  {
    if n > 0 {
      FiltersShape(args, n - 1);
      var t := args[n - 1];
      var next := Arg(args, n);
      if DigitFlagAt(args, n - 1, "--min_bookmark") || RatioEq(t) || (EqualsIgnoreCase(t, "--ratio") && IsRatioText(next)) {
      } else if ModeEq(t) {
        ModeLower(t[7..]);
      } else if EqualsIgnoreCase(t, "--mode") && IsModeName(next) {
        ModeLower(next);
      }
    }
  }

  /** The `--years` loop. */
  method ScanYears(args: seq<string>) returns (years: Option<nat>)
    ensures years == DigitFlagUpTo(args, |args|, "--years")
  {
    years := None;
    var i := 0;
    while i < |args|
      invariant 0 <= i <= |args|
      invariant years == DigitFlagUpTo(args, i, "--years")
    {
      var t := args[i];
      if DigitsEq(t, "--years") {
        years := Some(DigitsValue(t[8..]));
      } else if EqualsIgnoreCase(t, "--years") && IsDigits(Arg(args, i + 1)) {
        years := Some(DigitsValue(args[i + 1]));
      }
      i := i + 1;
    }
  }

  /** `Number.isFinite(years) ? Math.max(1, Math.min(20, years)) : null` */
  function YearsClamped(years: Option<nat>): (r: Option<nat>)
    ensures r.Some? ==> 1 <= r.value <= 20
    ensures r.Some? <==> years.Some? && (years.value as real) < OverflowThreshold
    ensures r.Some? && 1 <= years.value <= 20 ==> r.value == years.value
  {
    if years.Some? && (years.value as real) < OverflowThreshold then Some(MaxNat(1, Min(20, years.value))) else None
  }

  // -------------------------------------------------------- cleaned words

  /** The `cleaned` filter drops the argument at `i`. */
  predicate Dropped(args: seq<string>, i: nat)
    requires i < |args|
  {
    var x := args[i];
    var next := Arg(args, i + 1);
    var prev := Arg(args, i - 1);
    x in BoolFlags
    || DigitsEq(x, "--years")
    || (EqualsIgnoreCase(x, "--years") && IsDigits(next))
    || (i > 0 && IsDigits(x) && EqualsIgnoreCase(prev, "--years"))
    || DigitsEq(x, "--min_bookmark")
    || (EqualsIgnoreCase(x, "--min_bookmark") && IsDigits(next))
    || (i > 0 && IsDigits(x) && EqualsIgnoreCase(prev, "--min_bookmark"))
    || RatioEq(x)
    || (EqualsIgnoreCase(x, "--ratio") && IsRatioText(next))
    || (i > 0 && IsRatioText(x) && EqualsIgnoreCase(prev, "--ratio"))
    || ModeEq(x)
    || (EqualsIgnoreCase(x, "--mode") && IsModeName(next))
    || (i > 0 && IsModeName(x) && EqualsIgnoreCase(prev, "--mode"))
  }

  function CleanedFrom(args: seq<string>, i: nat): seq<string>
    requires i <= |args|
    decreases |args| - i
  {
    if i == |args| then []
    else (if Dropped(args, i) then [] else [args[i]]) + CleanedFrom(args, i + 1)
  }

  /** `args.filter(…)`: the arguments that are neither flags nor flag
      arguments, in order. */
  function Cleaned(args: seq<string>): seq<string> {
    CleanedFrom(args, 0)
  }

  /** Every cleaned word is an argument at a position the filter keeps. */
  lemma {:induction false} CleanedFromKept(args: seq<string>, i: nat)
    requires i <= |args|
    ensures |CleanedFrom(args, i)| <= |args| - i
    ensures forall t :: t in CleanedFrom(args, i) ==> exists j :: i <= j < |args| && args[j] == t && !Dropped(args, j)
    decreases |args| - i
  {
    if i < |args| {
      CleanedFromKept(args, i + 1);
      var head := if Dropped(args, i) then [] else [args[i]];
      var rest := CleanedFrom(args, i + 1);
      assert CleanedFrom(args, i) == head + rest;
      forall t | t in head + rest
        ensures exists j :: i <= j < |args| && args[j] == t && !Dropped(args, j)
      {
        if t in rest {
          var j :| i + 1 <= j < |args| && args[j] == t && !Dropped(args, j);
        } else {
          assert t == args[i] && !Dropped(args, i);
        }
      }
    }
  }

  /** A token the search keyword and the author name never contain. */
  predicate IsFlagToken(t: string) {
    t in BoolFlags || DigitsEq(t, "--years") || DigitsEq(t, "--min_bookmark") || RatioEq(t) || ModeEq(t)
  }

  /** A token right after its flag name: a number after `--years` or
      `--min_bookmark`, a ratio after `--ratio`, a mode after `--mode`. */
  predicate IsFlagArgument(args: seq<string>, j: nat)
    requires 0 < j < |args|
  {
    var x, prev := args[j], args[j - 1];
    (IsDigits(x) && (EqualsIgnoreCase(prev, "--years") || EqualsIgnoreCase(prev, "--min_bookmark")))
    || (IsRatioText(x) && EqualsIgnoreCase(prev, "--ratio"))
    || (IsModeName(x) && EqualsIgnoreCase(prev, "--mode"))
  }

  /** Flag tokens and the arguments that follow them never reach the
      cleaned words the keyword is made of. */
  lemma CleanedHasNoFlags(args: seq<string>)
    ensures forall t :: t in Cleaned(args) ==> !IsFlagToken(t)
    ensures forall t :: t in Cleaned(args) ==> exists j :: 0 <= j < |args| && args[j] == t && (j > 0 ==> !IsFlagArgument(args, j))
  {
    CleanedFromKept(args, 0);
  }

  // ------------------------------------------------------------- author

  const AuthorSkipped := ["--nsfw", "--nohq", "--no-hq", "--alltime"]

  /** The words the author loop keeps from position `i` on. */
  function AuthorKept(raw: seq<string>, i: nat): seq<string>
    requires i <= |raw|
    decreases |raw| - i
  {
    if i == |raw| then []
    else
      var t := raw[i];
      if t == "" || t in AuthorSkipped || DigitsEq(t, "--years") then AuthorKept(raw, i + 1)
      else if EqualsIgnoreCase(t, "--years") then
        if IsDigits(Arg(raw, i + 1)) then AuthorKept(raw, i + 2) else AuthorKept(raw, i + 1)
      else [t] + AuthorKept(raw, i + 1)
  }

  /** The author loop, which steps over the number after `--years`. */
  method KeepAuthorArgs(raw: seq<string>) returns (kept: seq<string>)
    ensures kept == AuthorKept(raw, 0)
  {
    kept := [];
    var i := 0;
    while i < |raw|
      invariant 0 <= i <= |raw|
      invariant kept + AuthorKept(raw, i) == AuthorKept(raw, 0)
    {
      var t := raw[i];
      if t == "" || t in AuthorSkipped || DigitsEq(t, "--years") {
      } else if EqualsIgnoreCase(t, "--years") {
        if IsDigits(Arg(raw, i + 1)) {
          i := i + 1;
        }
      } else {
        assert kept + AuthorKept(raw, i) == (kept + [t]) + AuthorKept(raw, i + 1);
        kept := kept + [t];
      }
      i := i + 1;
    }
  }

  /** The kept words hold no empty token, none of the four skipped flags and
      no `--years` in either spelling. */
  lemma {:induction false} AuthorKeptClean(raw: seq<string>, i: nat)
    requires i <= |raw|
    ensures forall t :: t in AuthorKept(raw, i) ==>
      t != "" && t !in AuthorSkipped && !DigitsEq(t, "--years") && !EqualsIgnoreCase(t, "--years") && t in raw
    decreases |raw| - i
  {
    if i < |raw| {
      var t := raw[i];
      if t == "" || t in AuthorSkipped || DigitsEq(t, "--years") {
        AuthorKeptClean(raw, i + 1);
      } else if EqualsIgnoreCase(t, "--years") {
        if IsDigits(Arg(raw, i + 1)) {
          AuthorKeptClean(raw, i + 2);
        } else {
          AuthorKeptClean(raw, i + 1);
        }
      } else {
        AuthorKeptClean(raw, i + 1);
      }
    }
  }

  /** A word that starts with a letter and is not a mode name is never a
      flag or a flag argument. */
  lemma PlainWordKept(args: seq<string>, i: nat)
    requires i < |args| && |args[i]| > 0
    requires 'a' <= FoldChar(args[i][0]) <= 'z'
    requires !IsModeName(args[i])
    ensures !Dropped(args, i)
  {
    PlainWordNoFlag(args[i]);
  }

  /** The facts about one such word that the filter looks at. */
  lemma PlainWordNoFlag(x: string)
    requires |x| > 0 && 'a' <= FoldChar(x[0]) <= 'z'
    ensures x !in BoolFlags && !IsDigits(x) && !IsRatioText(x)
    ensures !DigitsEq(x, "--years") && !EqualsIgnoreCase(x, "--years")
    ensures !DigitsEq(x, "--min_bookmark") && !EqualsIgnoreCase(x, "--min_bookmark")
    ensures !RatioEq(x) && !EqualsIgnoreCase(x, "--ratio")
    ensures !ModeEq(x) && !EqualsIgnoreCase(x, "--mode")
  {
    assert !IsDigits(x);
    NotDash(x, "--years=");
    NotDash(x, "--years");
    NotDash(x, "--min_bookmark=");
    NotDash(x, "--min_bookmark");
    NotDash(x, "--ratio=");
    NotDash(x, "--ratio");
    NotDash(x, "--mode=");
    NotDash(x, "--mode");
    assert !IsRatioText(x) by {
      var k := IndexOf(x, ':');
      if k > 0 {
        assert !IsDigit(x[..k][0]);
      }
    }
    assert x !in BoolFlags by {
      assert x[0] != '-';
    }
  }

  lemma NotDash(x: string, p: string)
    requires |x| > 0 && 'a' <= FoldChar(x[0]) <= 'z'
    requires |p| > 0 && p[0] == '-'
    ensures !StartsIgnoreCase(x, p) && !EqualsIgnoreCase(x, p)
  {
    if |x| >= |p| {
      assert FoldChar(x[..|p|][0]) != p[0];
    }
  }

  /** The author words come from the raw arguments after the first one,
      not from the cleaned words: a flag written before `author` shifts
      them, and `author` itself becomes part of the name. */
  lemma FlagBeforeAuthor()
    ensures Cleaned(["--nsfw", "author", "X"]) == ["author", "X"]
    ensures AuthorKept(Slice(["--nsfw", "author", "X"], 1), 0) == ["author", "X"]
    ensures Trim(Join(["author", "X"], " ")) == "author X"
  {
    CleanedExample();
    AuthorKeptExample();
    JoinExample();
  }

  lemma CleanedExample()
    ensures Cleaned(["--nsfw", "author", "X"]) == ["author", "X"]
  {
    var args := ["--nsfw", "author", "X"];
    assert Dropped(args, 0);
    PlainWordKept(args, 1);
    PlainWordKept(args, 2);
    assert CleanedFrom(args, 3) == [];
  }

  lemma AuthorKeptExample()
    ensures AuthorKept(Slice(["--nsfw", "author", "X"], 1), 0) == ["author", "X"]
  {
    var raw := Slice(["--nsfw", "author", "X"], 1);
    assert raw == ["author", "X"];
    NotDash("author", "--years=");
    NotDash("author", "--years");
    NotDash("X", "--years=");
    NotDash("X", "--years");
    assert "author" !in AuthorSkipped && "X" !in AuthorSkipped;
  }

  lemma JoinExample()
    ensures Trim(Join(["author", "X"], " ")) == "author X"
  {
    assert Join(["author", "X"], " ") == "author X" by {
      assert ["author", "X"][1..] == ["X"];
    }
    TrimUnchanged("author X");
  }

  /** The result of `author pick <uid> [count]`: a uid that is not all
      digits gives the empty pick the handler rejects; otherwise the uid, the
      clamped count (5 by default) and the clamped years. */
  predicate AuthorPickResult(cleaned: seq<string>, flags: Flags, years: Option<nat>, alltime: bool, cmd: Command) {
    var uid := Trim(Arg(cleaned, 2));
    cmd.AuthorPick? && cmd.flags == flags
    && (!IsDigits(uid) ==> cmd.uid == "" && cmd.count == 0.0 && cmd.years.None? && !cmd.alltime)
    && (IsDigits(uid) ==>
          cmd.uid == uid && cmd.count == ClampOf(NumberOf(Opt(cleaned, 3)), 5.0, 1.0, 20.0)
          && cmd.years == YearsClamped(years) && cmd.alltime == alltime)
  }

  /** The kept author words end in a count: a digit word after at least one
      other word. */
  predicate EndsInCount(kept: seq<string>) {
    |kept| > 1 && IsDigits(kept[|kept| - 1])
  }

  /** The result of `author <name...> [count]`: the words the author loop
      keeps from the raw arguments after the first one; a trailing count
      is taken off the name and clamped, and the count is 5 without one. */
  predicate AuthorNameResult(args: seq<string>, flags: Flags, years: Option<nat>, alltime: bool, cmd: Command) {
    var kept := AuthorKept(Slice(args, 1), 0);
    cmd.Author? && cmd.flags == flags && cmd.years == YearsClamped(years) && cmd.alltime == alltime
    && (EndsInCount(kept) ==>
          cmd.count == ClampOf(NumberOf(Some(kept[|kept| - 1])), 5.0, 1.0, 20.0)
          && cmd.author == Trim(Join(kept[..|kept| - 1], " ")))
    && (!EndsInCount(kept) ==> cmd.count == 5.0 && cmd.author == Trim(Join(kept, " ")))
  }

  /** `author pick <uid>` and `author <name> [count]`. */
  method ParseAuthor(args: seq<string>, cleaned: seq<string>, flags: Flags, years: Option<nat>, alltime: bool) returns (cmd: Command)
    ensures Lower(Arg(cleaned, 1)) == "pick" ==> AuthorPickResult(cleaned, flags, years, alltime, cmd)
    ensures Lower(Arg(cleaned, 1)) != "pick" ==> AuthorNameResult(args, flags, years, alltime, cmd)
    ensures cmd.AuthorPick? <==> Lower(Arg(cleaned, 1)) == "pick"
    ensures cmd.Author? ==> 1.0 <= cmd.count <= 20.0
    ensures cmd.AuthorPick? ==> cmd.count == 0.0 || 1.0 <= cmd.count <= 20.0
  {
    if Lower(Arg(cleaned, 1)) == "pick" {
      cmd := ParseAuthorPick(cleaned, flags, years, alltime);
    } else {
      cmd := ParseAuthorName(args, flags, years, alltime);
    }
  }

  /** `author pick <uid> [count]` */
  method ParseAuthorPick(cleaned: seq<string>, flags: Flags, years: Option<nat>, alltime: bool) returns (cmd: Command)
    ensures AuthorPickResult(cleaned, flags, years, alltime, cmd)
  {
    var uid := Trim(Arg(cleaned, 2));
    if !IsDigits(uid) {
      return AuthorPick(flags, "", 0.0, None, false);
    }
    var count := Clamp(Opt(cleaned, 3), 5.0, 1.0, 20.0);
    return AuthorPick(flags, uid, count, YearsClamped(years), alltime);
  }

  /** `author <name...> [count]` */
  method ParseAuthorName(args: seq<string>, flags: Flags, years: Option<nat>, alltime: bool) returns (cmd: Command)
    ensures AuthorNameResult(args, flags, years, alltime, cmd)
  {
    var kept := KeepAuthorArgs(Slice(args, 1));
    var count := 5.0;
    if |kept| > 1 && IsDigits(kept[|kept| - 1]) {
      count := Clamp(Some(kept[|kept| - 1]), 5.0, 1.0, 20.0);
      kept := kept[..|kept| - 1];
    }
    return Author(flags, count, Trim(Join(kept, " ")), YearsClamped(years), alltime);
  }

  /** A pick with a digit uid and no count asks for 5 works. */
  lemma PickDefaultCount(cleaned: seq<string>, flags: Flags, years: Option<nat>, alltime: bool, cmd: Command)
    requires |cleaned| == 3 && IsDigits(Trim(cleaned[2]))
    requires AuthorPickResult(cleaned, flags, years, alltime, cmd)
    ensures cmd.uid == Trim(cleaned[2]) && cmd.count == 5.0
  {
    ClampMissing(5.0, 1.0, 20.0);
  }

  /** The source's own example, `/pixiv author ASK 8`: the author is ASK
      and the count is 8. */
  lemma AuthorExample(flags: Flags, years: Option<nat>, alltime: bool, cmd: Command)
    requires AuthorNameResult(["author", "ASK", "8"], flags, years, alltime, cmd)
    ensures cmd.author == "ASK" && cmd.count == 8.0
  {
    AuthorArgsExample();
    CountWordExample();
    DigitClamp("8", 8);
    NameExample();
  }

  lemma AuthorArgsExample()
    ensures AuthorKept(Slice(["author", "ASK", "8"], 1), 0) == ["ASK", "8"]
  {
    assert Slice(["author", "ASK", "8"], 1) == ["ASK", "8"];
    AuthorKeptExampleCount();
  }

  lemma CountWordExample()
    ensures EndsInCount(["ASK", "8"])
    ensures ["ASK", "8"][|["ASK", "8"]| - 1] == "8" && ["ASK", "8"][..|["ASK", "8"]| - 1] == ["ASK"]
  {
    assert IsDigits("8");
  }

  lemma NameExample()
    ensures Trim(Join(["ASK"], " ")) == "ASK"
  {
    assert Join(["ASK"], " ") == "ASK";
    TrimUnchanged("ASK");
  }

  lemma AuthorKeptExampleCount()
    ensures AuthorKept(["ASK", "8"], 0) == ["ASK", "8"]
  {
    NotDash("ASK", "--years=");
    NotDash("ASK", "--years");
    assert "ASK" !in AuthorSkipped && "8" !in AuthorSkipped;
    assert AuthorKept(["ASK", "8"], 2) == [];
  }

  // --------------------------------------------------------- rank, search

  /** The result of `rank [count] [mode]`: the count clamped to [1, 20]
      (5 by default) and the mode in lower case when it is one of the four,
      daily otherwise. */
  predicate RankResult(cleaned: seq<string>, flags: Flags, cmd: Command) {
    cmd.Rank? && cmd.flags == flags
    && cmd.count == ClampOf(NumberOf(Opt(cleaned, 1)), 5.0, 1.0, 20.0)
    && (|cleaned| > 2 && Lower(cleaned[2]) in RankModes ==> cmd.mode == Lower(cleaned[2]))
    && (|cleaned| <= 2 || Lower(cleaned[2]) !in RankModes ==> cmd.mode == "daily")
  }

  method ParseRank(cleaned: seq<string>, flags: Flags) returns (cmd: Command)
    ensures RankResult(cleaned, flags, cmd)
    ensures 1.0 <= cmd.count <= 20.0 && cmd.mode in RankModes
  {
    var count := Clamp(Opt(cleaned, 1), 5.0, 1.0, 20.0);
    var mode := Lower(if |cleaned| > 2 then cleaned[2] else "daily");
    return Rank(flags, count, if mode in RankModes then mode else "daily");
  }

  /** `/pixiv rank` is the daily ranking with 5 works. */
  lemma RankDefaults(flags: Flags, cmd: Command)
    requires RankResult(["rank"], flags, cmd)
    ensures cmd.count == 5.0 && cmd.mode == "daily"
  {
    ClampMissing(5.0, 1.0, 20.0);
  }

  /** `/pixiv rank 3 yearly` falls back to the daily ranking, with 3 works. */
  lemma RankUnknownMode(flags: Flags, cmd: Command)
    requires RankResult(["rank", "3", "yearly"], flags, cmd)
    ensures cmd.count == 3.0 && cmd.mode == "daily"
  {
    var cleaned := ["rank", "3", "yearly"];
    assert Opt(cleaned, 1) == Some("3");
    DigitClamp("3", 3);
    YearlyNotMode();
  }

  lemma YearlyNotMode()
    ensures Lower("yearly") !in RankModes
  {
    assert Lower("yearly") == "yearly";
  }

  /** A one-digit count in range is taken as it is. */
  lemma DigitClamp(s: string, n: nat)
    requires |s| == 1 && '0' <= s[0] <= '9' && s[0] as int - '0' as int == n && 1 <= n <= 20
    ensures ClampOf(NumberOf(Some(s)), 5.0, 1.0, 20.0) == n as real
  {
    assert s[..0] == "";
    assert IsDigits(s) && DigitsValue(s) == n;
    ClampDigits(s);
  }

  /** The two numbers of an `a-b` token. */
  function RangeLow(s: string): nat
    requires IsRangeText(s)
  {
    DigitsValue(s[..IndexOf(s, '-')])
  }

  function RangeHigh(s: string): nat
    requires IsRangeText(s)
  {
    DigitsValue(s[IndexOf(s, '-') + 1..])
  }

  /** `{ start: Math.max(1, a), end: Math.max(a, b) }` */
  function RangeOf(s: string): (r: Range)
    requires IsRangeText(s)
    ensures r.start >= 1 && r.start >= RangeLow(s) && (r.start == 1 || r.start == RangeLow(s))
    ensures r.end >= RangeLow(s) && r.end >= RangeHigh(s) && (r.end == RangeLow(s) || r.end == RangeHigh(s))
  {
    Range(MaxNat(1, RangeLow(s)), MaxNat(RangeLow(s), RangeHigh(s)))
  }

  /** A range starting at 0 starts at 1: `/pixiv 0-3` asks for works 1 to 3. */
  lemma RangeFromZero()
    ensures IsRangeText("0-3") && RangeOf("0-3") == Range(1, 3)
  {
    var s := "0-3";
    assert IndexOf(s, '-') == 1 by {
      assert s[1..] == "-3";
    }
    assert s[..1] == "0" && s[2..] == "3";
    assert DigitsValue("0") == 0 && DigitsValue("3") == 3 by {
      assert "0"[..0] == "" && "3"[..0] == "";
    }
  }

  /** A leading count or range is not part of the keyword. */
  function KeywordStart(cleaned: seq<string>): nat {
    if IsDigits(Arg(cleaned, 0)) || IsRangeText(Arg(cleaned, 0)) then 1 else 0
  }

  /** `words.join(' ').trim() || 'オリジナル'` */
  function Keyword(words: seq<string>): (k: string)
    ensures k != ""
    ensures Trim(Join(words, " ")) != "" ==> k == Trim(Join(words, " "))
    ensures Trim(Join(words, " ")) == "" ==> k == DefaultKeyword
  {
    var w := Trim(Join(words, " "));
    if w == "" then DefaultKeyword else w
  }

  /** The result of `/pixiv [count|range] [keyword...]`: a leading digit
      word is the clamped count, a leading `a-b` the range, and the other
      cleaned words are the keyword, オリジナル when there are none. */
  predicate SearchResult(cleaned: seq<string>, flags: Flags, minBookmark: Option<nat>, ratio: Option<string>,
                         qualityMode: Option<string>, countFirst: bool, qualityFirst: bool, cmd: Command) {
    var first := Arg(cleaned, 0);
    cmd.Search? && cmd.flags == flags && cmd.countFirst == countFirst && cmd.qualityFirst == qualityFirst
    && cmd.count == (if IsDigits(first) then ClampOf(NumberOf(Some(first)), 5.0, 1.0, 20.0) else 5.0)
    && cmd.range == (if IsRangeText(first) then Some(RangeOf(first)) else None)
    && cmd.keyword == Keyword(Slice(cleaned, KeywordStart(cleaned)))
    && cmd.minBookmark == (if minBookmark.Some? && (minBookmark.value as real) < OverflowThreshold then minBookmark else None)
    && cmd.ratio == ratio && cmd.qualityMode == qualityMode
  }

  /** `/pixiv [count|range] [keyword...]` with the collected filters. */
  method ParseSearch(cleaned: seq<string>, flags: Flags, minBookmark: Option<nat>, ratio: Option<string>,
                     qualityMode: Option<string>, countFirst: bool, qualityFirst: bool) returns (cmd: Command)
    ensures SearchResult(cleaned, flags, minBookmark, ratio, qualityMode, countFirst, qualityFirst, cmd)
    ensures 1.0 <= cmd.count <= 20.0 && cmd.keyword != ""
  {
    var count := 5.0;
    var range: Option<Range> := None;
    var idx := 0;
    var first := Arg(cleaned, 0);
    if IsDigits(first) {
      count := Clamp(Some(first), 5.0, 1.0, 20.0);
      idx := 1;
    } else if IsRangeText(first) {
      range := Some(RangeOf(first));
      idx := 1;
    }
    var words := Trim(Join(Slice(cleaned, idx), " "));
    var keyword := if words == "" then DefaultKeyword else words;
    var mb := if minBookmark.Some? && (minBookmark.value as real) < OverflowThreshold then minBookmark else None;
    return Search(flags, count, range, keyword, mb, ratio, qualityMode, countFirst, qualityFirst);
  }

  /** `/pixiv 5 cat` searches for cat, 5 works. */
  lemma LeadingCountNotKeyword()
    ensures Keyword(Slice(["5", "cat"], KeywordStart(["5", "cat"]))) == "cat"
  {
    assert IsDigits(Arg(["5", "cat"], 0));
    assert Slice(["5", "cat"], 1) == ["cat"];
    assert Join(["cat"], " ") == "cat";
    TrimUnchanged("cat");
  }

  /** `/pixiv 5` searches for the default keyword. */
  lemma CountAloneDefaultKeyword()
    ensures Keyword(Slice(["5"], KeywordStart(["5"]))) == DefaultKeyword
  {
    assert IsDigits(Arg(["5"], 0));
    assert Slice(["5"], 1) == [];
    assert Join([], " ") == "";
    assert Trim("") == "";
  }

  /** The command the flagged path builds from the arguments: the flags,
      filters and years collected from all arguments, then an author lookup,
      a ranking or a search over the cleaned words, as the lower-cased first
      cleaned word decides. */
  predicate FlaggedResult(args: seq<string>, cmd: Command) {
    var cleaned := Cleaned(args);
    var flags := Flags("--nsfw" in args, "--nohq" in args || "--no-hq" in args);
    var years := DigitFlagUpTo(args, |args|, "--years");
    var alltime := "--alltime" in args;
    var f := FiltersUpTo(args, |args|);
    var head := Lower(Arg(cleaned, 0));
    if head == "author" then
      if Lower(Arg(cleaned, 1)) == "pick" then AuthorPickResult(cleaned, flags, years, alltime, cmd)
      else AuthorNameResult(args, flags, years, alltime, cmd)
    else if head == "rank" then RankResult(cleaned, flags, cmd)
    else SearchResult(cleaned, flags, f.minBookmark, f.ratio, f.qualityMode,
                      "--count_first" in args || "--count-first" in args,
                      "--quality_first" in args || "--quality-first" in args, cmd)
  }

  /** The search-like commands: flags and filters collected, then an
      author lookup, a ranking or a search over the cleaned words. */
  method ParseFlagged(args: seq<string>) returns (cmd: Command)
    ensures FlaggedResult(args, cmd)
    ensures cmd.AuthorPick? || cmd.Author? || cmd.Rank? || cmd.Search?
    ensures cmd.flags == Flags("--nsfw" in args, "--nohq" in args || "--no-hq" in args)
    ensures cmd.Author? || cmd.Rank? || cmd.Search? ==> 1.0 <= cmd.count <= 20.0
    ensures cmd.AuthorPick? ==> cmd.count == 0.0 || 1.0 <= cmd.count <= 20.0
    ensures cmd.Rank? ==> cmd.mode in RankModes
    ensures cmd.Search? ==>
      && cmd.keyword != ""
      && (cmd.range.Some? ==> cmd.range.value.start >= 1)
      && (cmd.ratio.Some? ==> IsRatioText(cmd.ratio.value))
      && (cmd.qualityMode.Some? ==> cmd.qualityMode.value in QualityModes)
      && (cmd.minBookmark.Some? ==> cmd.minBookmark == DigitFlagUpTo(args, |args|, "--min_bookmark"))
  {
    var flags := Flags("--nsfw" in args, "--nohq" in args || "--no-hq" in args);
    var countFirst := "--count_first" in args || "--count-first" in args;
    var qualityFirst := "--quality_first" in args || "--quality-first" in args;
    var minBookmark, ratio, qualityMode := ScanFilters(args);
    FiltersShape(args, |args|);
    MinBookmarkIsLastFlag(args, |args|);
    var years := ScanYears(args);
    var alltime := "--alltime" in args;
    var cleaned := Cleaned(args);
    var head := Lower(Arg(cleaned, 0));
    if head == "author" {
      cmd := ParseAuthor(args, cleaned, flags, years, alltime);
    } else if head == "rank" {
      cmd := ParseRank(cleaned, flags);
    } else {
      cmd := ParseSearch(cleaned, flags, minBookmark, ratio, qualityMode, countFirst, qualityFirst);
    }
  }

  /** `parsePixivCommand(cmdText)` */
  method ParsePixivCommand(cmdText: string) returns (cmd: Command)
    ensures SimpleCommand(Args(cmdText)).Some? ==> cmd == SimpleCommand(Args(cmdText)).value
    ensures SimpleCommand(Args(cmdText)).None? ==> FlaggedResult(Args(cmdText), cmd)
    ensures cmd.Author? || cmd.Rank? || cmd.Search? ==> 1.0 <= cmd.count <= 20.0
    ensures cmd.AuthorPick? ==> cmd.count == 0.0 || 1.0 <= cmd.count <= 20.0
    ensures cmd.Rank? ==> cmd.mode in RankModes
    ensures cmd.Search? ==> cmd.keyword != ""
  {
    var args := Args(cmdText);
    var simple := SimpleCommand(args);
    if simple.Some? {
      return simple.value;
    }
    cmd := ParseFlagged(args);
  }
}
