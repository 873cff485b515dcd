/**
  maproulette_metrics/utils.py: the calendar helper `daterange` and the output
  path fix-up `xlsx_corrector`.

  A date is its proleptic Gregorian ordinal, as Python's `date.toordinal()`
  gives it (0001-01-01 is 1, a Monday), and a day is one unit.
 */
module Utils {
  import opened Wrappers

  type Date = int

  /** `date.weekday()`: 0 is Monday, 6 is Sunday. */
  function Weekday(d: Date): (w: nat)
    ensures w < 7
  {
    (d + 6) % 7
  }

  /** The next day's weekday follows this day's, wrapping from Sunday to Monday. */
  lemma WeekdayNext(d: Date)
    ensures Weekday(d + 1) == if Weekday(d) == 6 then 0 else Weekday(d) + 1
  {
  }

  /** `daterange(start, end)`: the generator `start + n` for `n` in `range((end - start).days)`. */
  function DateRange(start: Date, end: Date): (r: seq<Date>)
    ensures |r| == if end > start then end - start else 0
    ensures forall i :: 0 <= i < |r| ==> r[i] == start + i
    decreases end - start
  {
    if end <= start then [] else [start] + DateRange(start + 1, end)
  }

  /** The range is half-open: exactly the days from `start` up to but excluding `end`. */
  lemma DateRangeMembers(start: Date, end: Date, d: Date)
    ensures d in DateRange(start, end) <==> start <= d < end
  {
    var r := DateRange(start, end);
    if start <= d < end {
      assert r[d - start] == d;
    }
  }

  /** The range is empty exactly when `end <= start`, and otherwise its last day is `end - 1`. */
  lemma DateRangeLast(start: Date, end: Date)
    ensures DateRange(start, end) == [] <==> end <= start
    ensures start < end ==> DateRange(start, end)[|DateRange(start, end)| - 1] == end - 1
  {
  }

  /** Consecutive days, so chronological and free of repeats. */
  lemma DateRangeIncreasing(start: Date, end: Date)
    ensures forall i :: 0 < i < |DateRange(start, end)| ==>
      DateRange(start, end)[i] == DateRange(start, end)[i - 1] + 1
  {
  }

  // ---------------------------------------------------------------------------
  // Paths: the part of Python's `pathlib.PurePosixPath` that `xlsx_corrector` uses.

  /**
    A parsed path: whether it is anchored at `/`, and its components. `Path(s)`
    never keeps an empty component or a `.` component.
   */
  datatype Path = Path(root: bool, parts: seq<string>)

  /** `xlsx_corrector` accepts `str | Path`. */
  datatype RawPath = FromStr(s: string) | FromPath(p: Path)

  /** The two `ValueError`s `with_suffix` raises. */
  datatype PathError = EmptyName(path: Path) | InvalidSuffix(suffix: string)

  predicate ValidPart(part: string) {
    part != "" && part != "." && '/' !in part
  }

  /** What `Path(s)` can produce. */
  ghost predicate Normal(p: Path) {
    forall i :: 0 <= i < |p.parts| ==> ValidPart(p.parts[i])
  }

  /** `s.split("/")`. */
  function Split(s: string): (r: seq<string>)
    ensures |r| > 0
    ensures forall i :: 0 <= i < |r| ==> '/' !in r[i]
  {
    if |s| == 0 then [""]
    else
      var rest := Split(s[1..]);
      if s[0] == '/' then [""] + rest
      else [[s[0]] + rest[0]] + rest[1..]
  }

  /** `"/".join(parts)`. */
  function Join(parts: seq<string>): string
    requires |parts| > 0
  {
    if |parts| == 1 then parts[0] else parts[0] + "/" + Join(parts[1..])
  }

  /** Drops the empty and `.` components. */
  function Components(pieces: seq<string>): (r: seq<string>)
    ensures forall x :: x in r <==> x in pieces && x != "" && x != "."
  {
    if pieces == [] then []
    else
      var rest := Components(pieces[1..]);
      if pieces[0] == "" || pieces[0] == "." then rest else [pieces[0]] + rest
  }

  /**
    `PurePosixPath(s)`: anchored exactly when `s` starts with `/`, and in the
    normal form, with no empty, `.` or `/`-holding component.
   */
  function ParsePath(s: string): (r: Path)
    ensures r.root <==> |s| > 0 && s[0] == '/'
    ensures Normal(r)
  {
    var pieces := Split(s);
    var parts := Components(pieces);
    assert forall i :: 0 <= i < |parts| ==> parts[i] in pieces;
    Path(|s| > 0 && s[0] == '/', parts)
  }

  /** `str(p)`: never empty, and for a path in normal form it starts with `/` exactly when the path is anchored. */
  function Render(p: Path): (r: string)
    ensures p.parts == [] ==> |r| > 0
    ensures Normal(p) ==> |r| > 0 && (r[0] == '/' <==> p.root)
  {
    if p.parts == [] then (if p.root then "/" else ".")
    else
      assert Normal(p) ==> p.parts[0][0] in p.parts[0];
      (if p.root then "/" else "") + Join(p.parts)
  }

  /** `p.name`: the final component, empty for `.` and for `/`. */
  function Name(p: Path): string {
    if p.parts == [] then "" else p.parts[|p.parts| - 1]
  }

  /** `s.rfind(c)`. */
  function LastIndex(s: string, c: char): (r: int)
    ensures -1 <= r < |s|
    ensures r >= 0 ==> s[r] == c
    ensures forall j :: r < j < |s| ==> s[j] != c
  {
    if |s| == 0 then -1
    else if s[|s| - 1] == c then |s| - 1
    else LastIndex(s[..|s| - 1], c)
  }

  /**
    `PurePath.suffix` of a name as CPython 3.10 to 3.13 define it: from the
    last dot on, provided that dot is neither the first nor the last character.
   */
  function Suffix(name: string): (r: string)
    ensures r != "" ==> 2 <= |r| < |name| && r[0] == '.' && '.' !in r[1..] && r == name[|name| - |r|..]
  {
    var i := LastIndex(name, '.');
    if 0 < i < |name| - 1 then name[i..] else ""
  }

  /** `PurePath.stem` of a name: the name without its suffix. */
  function Stem(name: string): (r: string)
    ensures r + Suffix(name) == name
  {
    var suffix := Suffix(name);
    if suffix == "" then name else name[..|name| - |suffix|]
  }

  /**
    `PurePath.with_suffix(suffix)`: an invalid suffix or an empty name raises
    the matching `ValueError`; otherwise only the final component changes, to
    its stem followed by `suffix`.
   */
  function WithSuffix(p: Path, suffix: string): (r: Result<Path, PathError>)
    ensures r.Failure? && r.error.InvalidSuffix? ==>
      r.error.suffix == suffix && ('/' in suffix || suffix == "." || (suffix != "" && suffix[0] != '.'))
    ensures r.Failure? && r.error.EmptyName? ==> Name(p) == "" && r.error.path == p
    ensures r.Success? <==> Name(p) != "" && '/' !in suffix && suffix != "." && (suffix == "" || suffix[0] == '.')
    ensures r.Success? ==> r.value.root == p.root && |r.value.parts| == |p.parts|
  {
    if '/' in suffix || (suffix != "" && suffix[0] != '.') || suffix == "." then
      Failure(InvalidSuffix(suffix))
    else if Name(p) == "" then
      Failure(EmptyName(p))
    else
      Success(Path(p.root, p.parts[..|p.parts| - 1] + [Stem(Name(p)) + suffix]))
  }

  function ToPath(raw: RawPath): Path {
    match raw
    case FromStr(s) => ParsePath(s)
    case FromPath(p) => p
  }

  /** `xlsx_corrector(raw_path)`: fixes a mistyped or missing `.xlsx` extension. */
  function XlsxCorrector(raw: RawPath): (r: Result<Path, PathError>)
    ensures r.Success? <==> Name(ToPath(raw)) != ""
  {
    WithSuffix(ToPath(raw), ".xlsx")
  }

  // ---------------------------------------------------------------------------
  // Lemmas about paths.

  /** A string with no `/` splits into itself alone. */
  lemma {:induction false} SplitNoSlash(s: string)
    requires '/' !in s
    ensures Split(s) == [s]
  {
    if |s| > 0 {
      SplitNoSlash(s[1..]);
      assert [s[0]] + s[1..] == s;
    }
  }

  /** Splitting `a + t`, where `a` holds no `/`, glues `a` to the first piece of `t`. */
  lemma {:induction false} SplitPrefix(a: string, t: string)
    requires '/' !in a
    ensures Split(a + t) == [a + Split(t)[0]] + Split(t)[1..]
  {
    var st := Split(t);
    if |a| > 0 {
      SplitPrefix(a[1..], t);
      assert (a + t)[1..] == a[1..] + t;
      assert [a[0]] + (a[1..] + st[0]) == a + st[0];
    } else {
      assert a + t == t;
      assert a + st[0] == st[0];
      assert st == [st[0]] + st[1..];
    }
  }

  /** `"/".join` is undone by `split("/")` when no part holds a `/`. */
  lemma {:induction false} SplitJoin(parts: seq<string>)
    requires |parts| > 0
    requires forall i :: 0 <= i < |parts| ==> '/' !in parts[i]
    ensures Split(Join(parts)) == parts
  {
    if |parts| == 1 {
      SplitNoSlash(parts[0]);
      assert parts == [parts[0]];
    } else {
      var tail := Join(parts[1..]);
      SplitJoin(parts[1..]);
      var slashed := "/" + tail;
      assert slashed[1..] == tail;
      var st := Split(slashed);
      assert st == [""] + parts[1..];
      assert st[0] == "" && st[1..] == parts[1..];
      assert Join(parts) == parts[0] + slashed;
      SplitPrefix(parts[0], slashed);
      assert parts[0] + st[0] == parts[0];
      assert parts == [parts[0]] + parts[1..];
    }
  }

  lemma {:induction false} ComponentsOfValid(pieces: seq<string>)
    requires forall i :: 0 <= i < |pieces| ==> ValidPart(pieces[i])
    ensures Components(pieces) == pieces
  {
    if pieces != [] {
      ComponentsOfValid(pieces[1..]);
      assert pieces == [pieces[0]] + pieces[1..];
    }
  }

  lemma {:induction false} JoinStartsWith(parts: seq<string>)
    requires |parts| > 0 && |parts[0]| > 0
    ensures |Join(parts)| > 0 && Join(parts)[0] == parts[0][0]
  {
  }

  /**
    `str` and `Path` are inverse on the paths `Path` produces: rendering a path
    and parsing the text gives the same path back.
   */
  lemma ParseRender(p: Path)
    requires Normal(p)
    ensures ParsePath(Render(p)) == p
  {
    if p.parts == [] {
      if p.root {
        assert Split("/") == ["", ""] by {
          assert "/"[1..] == "";
        }
      } else {
        SplitNoSlash(".");
      }
    } else {
      var j := Join(p.parts);
      SplitJoin(p.parts);
      ComponentsOfValid(p.parts);
      JoinStartsWith(p.parts);
      if p.root {
        var text := "/" + j;
        assert Render(p) == text;
        assert text[1..] == j;
        var pieces := Split(text);
        assert pieces == [""] + p.parts;
        assert pieces[1..] == p.parts;
        assert Components(pieces) == Components(p.parts);
        assert ParsePath(text).root;
      } else {
        assert Render(p) == j;
        assert j[0] != '/' by {
          assert p.parts[0][0] in p.parts[0];
        }
      }
    }
  }

  /**
    The name `stem + ".xlsx"` has the suffix `.xlsx` and the stem `stem`, whatever
    dots `stem` holds, when `stem` is not empty.
   */
  lemma XlsxName(stem: string)
    requires |stem| > 0
    ensures Suffix(stem + ".xlsx") == ".xlsx"
    ensures Stem(stem + ".xlsx") == stem
  {
    var name := stem + ".xlsx";
    var i := LastIndex(name, '.');
    assert name[|stem|] == '.';
    assert name[|stem| + 1] == 'x' && name[|stem| + 2] == 'l';
    assert name[|stem| + 3] == 's' && name[|stem| + 4] == 'x';
    assert i == |stem|;
    assert name[i..] == ".xlsx";
    assert name[..|name| - 5] == stem;
  }

  /** A stem is never empty when the name is not, and it is a prefix of the name. */
  lemma StemOfName(name: string)
    requires |name| > 0
    ensures 0 < |Stem(name)| <= |name|
    ensures Stem(name) == name[..|Stem(name)|]
  {
  }

  /** `xlsx_corrector` fails exactly when the path has no name (`.`, `/`, ``), with the `ValueError` of `with_suffix`. */
  lemma XlsxCorrectorFails(raw: RawPath)
    ensures XlsxCorrector(raw).Failure? <==> Name(ToPath(raw)) == ""
    ensures XlsxCorrector(raw).Failure? ==> XlsxCorrector(raw).error == EmptyName(ToPath(raw))
  {
  }

  /**
    On success the result's final suffix is `.xlsx`, and only the suffix
    changed: the anchor, the parent directories and the stem are those of the
    input.
   */
  lemma XlsxCorrectorSuffix(raw: RawPath)
    requires XlsxCorrector(raw).Success?
    ensures Suffix(Name(XlsxCorrector(raw).value)) == ".xlsx"
    ensures Stem(Name(XlsxCorrector(raw).value)) == Stem(Name(ToPath(raw)))
    ensures XlsxCorrector(raw).value.root == ToPath(raw).root
    ensures |XlsxCorrector(raw).value.parts| == |ToPath(raw).parts|
    ensures DirectoryParts(XlsxCorrector(raw).value) == DirectoryParts(ToPath(raw))
  {
    var p := ToPath(raw);
    StemOfName(Name(p));
    XlsxName(Stem(Name(p)));
  }

  /** The parent directories: every component but the last. */
  function DirectoryParts(p: Path): seq<string> {
    if p.parts == [] then [] else p.parts[..|p.parts| - 1]
  }

  /** The corrected path's text ends with `.xlsx`. */
  lemma XlsxCorrectorText(raw: RawPath)
    requires XlsxCorrector(raw).Success?
    ensures var text := Render(XlsxCorrector(raw).value);
      |text| >= 5 && text[|text| - 5..] == ".xlsx"
  {
    var q := XlsxCorrector(raw).value;
    var stem := Stem(Name(ToPath(raw)));
    StemOfName(Name(ToPath(raw)));
    assert Name(q) == stem + ".xlsx";
    RenderEndsWithName(q);
    var text, name := Render(q), Name(q);
    assert text[|text| - |name|..][|name| - 5..] == text[|text| - 5..];
  }

  /** A path's text ends with its name. */
  lemma RenderEndsWithName(p: Path)
    requires p.parts != []
    ensures |Render(p)| >= |Name(p)|
    ensures Render(p)[|Render(p)| - |Name(p)|..] == Name(p)
  {
    var j := Join(p.parts);
    JoinEndsWith(p.parts);
    var prefix: string := if p.root then "/" else "";
    assert Render(p) == prefix + j;
    TailOfConcat(prefix, j, |Name(p)|);
  }

  /** The last `k` characters of `a + b` are those of `b` when `b` has at least `k`. */
  lemma TailOfConcat(a: string, b: string, k: nat)
    requires k <= |b|
    ensures (a + b)[|a + b| - k..] == b[|b| - k..]
  {
    var t, u := (a + b)[|a + b| - k..], b[|b| - k..];
    assert |t| == |u|;
    assert forall i :: 0 <= i < |t| ==> t[i] == u[i];
  }

  lemma {:induction false} JoinEndsWith(parts: seq<string>)
    requires |parts| > 0
    ensures |Join(parts)| >= |parts[|parts| - 1]|
    ensures Join(parts)[|Join(parts)| - |parts[|parts| - 1]|..] == parts[|parts| - 1]
  {
    if |parts| > 1 {
      JoinEndsWith(parts[1..]);
    }
  }

  /**
    Correcting a named path in normal form gives a path in normal form whose
    name is the old stem followed by `.xlsx`.
   */
  lemma CorrectedShape(p: Path)
    requires Normal(p) && Name(p) != ""
    ensures WithSuffix(p, ".xlsx").Success?
    ensures var q := WithSuffix(p, ".xlsx").value;
      && Normal(q) && q.root == p.root && q.parts != []
      && Name(q) == Stem(Name(p)) + ".xlsx"
      && q.parts[..|q.parts| - 1] == DirectoryParts(p)
  {
    var q := WithSuffix(p, ".xlsx").value;
    var stem := Stem(Name(p));
    StemOfName(Name(p));
    assert '/' !in stem by {
      assert forall k :: 0 <= k < |stem| ==> stem[k] == Name(p)[k];
    }
    assert ValidPart(stem + ".xlsx") by {
      assert '/' !in ".xlsx";
      assert (stem + ".xlsx")[|stem|] == '.';
    }
    assert q.parts == DirectoryParts(p) + [stem + ".xlsx"];
  }

  /** Correcting a path the corrector produced changes nothing, whether it is passed on as a `Path` or as its text. */
  lemma XlsxCorrectorIdempotent(raw: RawPath)
    requires Normal(ToPath(raw))
    requires XlsxCorrector(raw).Success?
    ensures var q := XlsxCorrector(raw).value;
      && Normal(q)
      && XlsxCorrector(FromPath(q)) == Success(q)
      && XlsxCorrector(FromStr(Render(q))) == Success(q)
  {
    var p, q := ToPath(raw), XlsxCorrector(raw).value;
    CorrectedShape(p);
    var stem := Stem(Name(p));
    assert Stem(Name(q)) == stem by {
      StemOfName(Name(p));
      XlsxName(stem);
    }
    assert WithSuffix(q, ".xlsx") == Success(q) by {
      assert q.parts[..|q.parts| - 1] + [Name(q)] == q.parts;
    }
    ParseRender(q);
  }

  /** A single plain component parses to a relative one-part path. */
  lemma ParseSimple(s: string)
    requires ValidPart(s)
    ensures ParsePath(s) == Path(false, [s])
  {
    SplitNoSlash(s);
    ComponentsOfValid([s]);
  }

  /** A bare file name keeps its stem and gets the suffix `.xlsx`. */
  lemma XlsxCorrectorOnName(name: string)
    requires ValidPart(name)
    ensures XlsxCorrector(FromStr(name)) == Success(Path(false, [Stem(name) + ".xlsx"]))
  {
    ParseSimple(name);
    var p := Path(false, [name]);
    assert Name(p) == name;
    assert !('/' in ".xlsx");
    assert ".xlsx"[0] == '.';
    assert p.parts[..0] + [Stem(name) + ".xlsx"] == [Stem(name) + ".xlsx"];
  }

  /** The stem of `stem.ext`, where `ext` holds no dot and `stem` is not empty, is `stem`. */
  lemma StemOfDotted(stem: string, ext: string)
    requires stem != "" && ext != "" && '.' !in ext
    ensures Stem(stem + "." + ext) == stem
  {
    var name := stem + "." + ext;
    var i := LastIndex(name, '.');
    assert name[|stem|] == '.';
    assert forall k :: |stem| < k < |name| ==> name[k] == ext[k - |stem| - 1];
    assert i == |stem|;
    assert name[..|stem|] == stem;
  }

  /** A wrong extension, one without a dot, after a non-empty stem (which may hold dots) is replaced by `.xlsx`. */
  lemma XlsxCorrectorReplacesExtension(stem: string, ext: string)
    requires ValidPart(stem)
    requires ext != "" && '.' !in ext && '/' !in ext
    ensures XlsxCorrector(FromStr(stem + "." + ext)) == Success(ParsePath(stem + ".xlsx"))
  {
    var name := stem + "." + ext;
    assert ValidPart(name) by {
      NoSlashConcat(stem, ".");
      NoSlashConcat(stem + ".", ext);
    }
    assert XlsxCorrector(FromStr(name)) == Success(Path(false, [stem + ".xlsx"])) by {
      XlsxCorrectorOnName(name);
      StemOfDotted(stem, ext);
    }
    assert ParsePath(stem + ".xlsx") == Path(false, [stem + ".xlsx"]) by {
      NoSlashConcat(stem, ".xlsx");
      ParseSimple(stem + ".xlsx");
    }
  }

  /** Joining two texts without `/` gives a text without `/`. */
  lemma NoSlashConcat(a: string, b: string)
    requires '/' !in a && '/' !in b
    ensures '/' !in a + b
  {
    assert forall k :: 0 <= k < |a + b| ==> (a + b)[k] == if k < |a| then a[k] else b[k - |a|];
  }

  /** A name without any dot gets `.xlsx` appended. */
  lemma XlsxCorrectorAddsExtension(name: string)
    requires ValidPart(name) && '.' !in name
    ensures XlsxCorrector(FromStr(name)) == Success(ParsePath(name + ".xlsx"))
  {
    XlsxCorrectorOnName(name);
    assert LastIndex(name, '.') == -1;
    XlsxName(name);
    ParseSimple(name + ".xlsx");
  }

  /** `"test.xslx"` is corrected to `test.xlsx`, one of the two cases of the project's test. */
  lemma XlsxCorrectorMistypedExample(raw: string)
    requires raw == "test.xslx"
    ensures XlsxCorrector(FromStr(raw)) == Success(ParsePath("test.xlsx"))
  {
    var stem, ext := "test", "xslx";
    assert stem + ".xlsx" == "test.xlsx";
    assert XlsxCorrector(FromStr(raw)) == Success(ParsePath(stem + ".xlsx")) by {
      assert raw == stem + "." + ext;
      XlsxCorrectorReplacesExtension(stem, ext);
    }
  }

  /** `"test"` is corrected to `test.xlsx`, the other case of the project's test. */
  lemma XlsxCorrectorBareExample(raw: string)
    requires raw == "test"
    ensures XlsxCorrector(FromStr(raw)) == Success(ParsePath("test.xlsx"))
  {
    assert raw + ".xlsx" == "test.xlsx";
    assert XlsxCorrector(FromStr(raw)) == Success(ParsePath(raw + ".xlsx")) by {
      XlsxCorrectorAddsExtension(raw);
    }
  }
}
