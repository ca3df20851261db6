/** The names `fonts/mimic.py` derives from a KaTeX reference file name: the
    subfamily label, the output file name and the family name handed to the
    name-table rewrite; and the fixed list of (reference, template) pairs the
    driver walks. */
module Mimic {
  import opened PyStr
  import NameTable

  /** `katex_font_path.split(".")[0].split("-")[-1]`: the text after the last
      '-' of the text before the first '.'. */
  function FontStyle(katexPath: string): (style: string)
    ensures '-' !in style && '.' !in style
    ensures IsSuffix(style, SplitFirst(katexPath, '.'))
    ensures var stem := SplitFirst(katexPath, '.');
      |style| == |stem| || stem[|stem| - |style| - 1] == '-'
  {
    SplitLast(SplitFirst(katexPath, '.'), '-')
  }

  /** `"FiraMath_" + katex_font_path.split(".")[0].split("_")[-1] + ".otf"`. */
  function OutputName(katexPath: string): (name: string)
    ensures |name| >= 13 && name[..9] == "FiraMath_" && name[|name| - 4..] == ".otf"
    ensures var middle := name[9..|name| - 4];
      '_' !in middle && '.' !in middle && IsSuffix(middle, SplitFirst(katexPath, '.'))
    ensures var middle, stem := name[9..|name| - 4], SplitFirst(katexPath, '.');
      |middle| == |stem| || stem[|stem| - |middle| - 1] == '_'
  {
    var middle := SplitLast(SplitFirst(katexPath, '.'), '_');
    var name := "FiraMath_" + middle + ".otf";
    assert name[9..|name| - 4] == middle;
    name
  }

  /** `output_path.split("-")[0]`: the family name given to `set_font_name`. */
  function FamilyName(outputPath: string): (family: string)
    ensures '-' !in family && family <= outputPath
    ensures |family| == |outputPath| || outputPath[|family|] == '-'
  {
    SplitFirst(outputPath, '-')
  }

  /** No separator the derivations split on. */
  predicate Plain(s: string)
  {
    '-' !in s && '.' !in s && '_' !in s
  }

  /** A reference file name in the `KaTeX_<style>-<weight>.ttf` convention. */
  function KatexFile(style: string, weight: string): string
  {
    "KaTeX_" + style + "-" + weight + ".ttf"
  }

  /** What one call of `createsubset` hands to `subset_otf`, and the names
      that `subset_otf` passes on to `set_font_name`. */
  datatype SubsetJob = SubsetJob(
    reference: string,   // font whose codepoints are kept
    template: string,    // font that is subset
    output: string,      // file written
    family: string,      // new family name
    subfamily: string)   // new subfamily name

  /** `createsubset(katex_font_path, firamath_font_path)` together with the
      family name derived inside `subset_otf`. */
  function CreateSubset(katexPath: string, firaPath: string): (job: SubsetJob)
    ensures job.reference == katexPath && job.template == firaPath
    ensures job.output == OutputName(katexPath) && job.subfamily == FontStyle(katexPath)
    ensures job.family <= job.output && '-' !in job.family
    ensures |job.family| == |job.output| || job.output[|job.family|] == '-'
  {
    var output := OutputName(katexPath);
    SubsetJob(katexPath, firaPath, output, FamilyName(output), FontStyle(katexPath))
  }

  /** The text before the first '.' of `KaTeX_<style>-<weight>.ttf`. */
  lemma StemOfKatexFile(style: string, weight: string)
    requires Plain(style) && Plain(weight)
    ensures SplitFirst(KatexFile(style, weight), '.') == "KaTeX_" + style + "-" + weight
  {
    var stem := "KaTeX_" + style + "-" + weight;
    assert KatexFile(style, weight) == stem + ['.'] + "ttf";
    assert '.' !in stem by {
      assert stem == "KaTeX_" + (style + "-" + weight);
    }
    SplitFirstOf(stem, "ttf", '.');
  }

  /** The subfamily label of `KaTeX_<style>-<weight>.ttf` is `<weight>`. */
  lemma FontStyleOfKatexFile(style: string, weight: string)
    requires Plain(style) && Plain(weight)
    ensures FontStyle(KatexFile(style, weight)) == weight
  {
    StemOfKatexFile(style, weight);
    SplitLastOf("KaTeX_" + style, weight, '-');
  }

  /** The output file of `KaTeX_<style>-<weight>.ttf` is
      `FiraMath_<style>-<weight>.otf`: the weight is kept. */
  lemma OutputNameOfKatexFile(style: string, weight: string)
    requires Plain(style) && Plain(weight)
    ensures OutputName(KatexFile(style, weight)) == "FiraMath_" + style + "-" + weight + ".otf"
  {
    StemOfKatexFile(style, weight);
    assert "KaTeX_" + style + "-" + weight == "KaTeX" + ['_'] + (style + "-" + weight);
    assert '_' !in style + "-" + weight;
    SplitLastOf("KaTeX", style + "-" + weight, '_');
  }

  /** The family derived from `FiraMath_<style>-<weight>.otf` is `FiraMath_<style>`. */
  lemma FamilyOfOutputFile(style: string, weight: string)
    requires '-' !in style
    ensures FamilyName("FiraMath_" + style + "-" + weight + ".otf") == "FiraMath_" + style
  {
    assert "FiraMath_" + style + "-" + weight + ".otf" == ("FiraMath_" + style) + ['-'] + (weight + ".otf");
    SplitFirstOf("FiraMath_" + style, weight + ".otf", '-');
  }

  /** For `KaTeX_<style>-<weight>.ttf`: the subfamily is `<weight>`, the
      output file is `FiraMath_<style>-<weight>.otf`, and the family is
      `FiraMath_<style>`. */
  lemma DeriveFromKatexFile(style: string, weight: string)
    requires Plain(style) && Plain(weight)
    ensures FontStyle(KatexFile(style, weight)) == weight
    ensures OutputName(KatexFile(style, weight)) == "FiraMath_" + style + "-" + weight + ".otf"
    ensures FamilyName(OutputName(KatexFile(style, weight))) == "FiraMath_" + style
  {
    FontStyleOfKatexFile(style, weight);
    OutputNameOfKatexFile(style, weight);
    FamilyOfOutputFile(style, weight);
  }

  /** For such a file, the full name and PostScript name that the rewrite
      writes ("family-subfamily") are the output file name without ".otf". */
  lemma FullNameIsOutputStem(style: string, weight: string, firaPath: string)
    requires Plain(style) && Plain(weight)
    ensures var job := CreateSubset(KatexFile(style, weight), firaPath);
      NameTable.FullName(job.family, job.subfamily) + ".otf" == job.output
  {
    DeriveFromKatexFile(style, weight);
  }

  /** `FiraMath_<style>-<weight>.otf` determines its style and weight. */
  lemma OutputFileInjective(style: string, weight: string, style': string, weight': string)
    requires Plain(style) && Plain(weight) && Plain(style') && Plain(weight')
    requires "FiraMath_" + style + "-" + weight + ".otf" == "FiraMath_" + style' + "-" + weight' + ".otf"
    ensures style == style' && weight == weight'
  {
    var output := "FiraMath_" + style + "-" + weight + ".otf";
    var family, family' := "FiraMath_" + style, "FiraMath_" + style';
    assert output == family + ['-'] + (weight + ".otf");
    assert output == family' + ['-'] + (weight' + ".otf");
    SplitFirstOf(family, weight + ".otf", '-');
    SplitFirstOf(family', weight' + ".otf", '-');
    assert style == family[9..] && style' == family'[9..];
    var tail := output[|family| + 1..];
    assert tail == weight + ".otf" == weight' + ".otf";
    assert weight == tail[..|tail| - 4] == weight';
  }

  /** Distinct (style, weight) pairs give distinct output files. */
  lemma OutputNameInjective(style: string, weight: string, style': string, weight': string)
    requires Plain(style) && Plain(weight) && Plain(style') && Plain(weight')
    requires OutputName(KatexFile(style, weight)) == OutputName(KatexFile(style', weight'))
    ensures style == style' && weight == weight'
  {
    DeriveFromKatexFile(style, weight);
    DeriveFromKatexFile(style', weight');
    OutputFileInjective(style, weight, style', weight');
  }

  /** `fontlist`: the active (reference, template) pairs, in order; the two
      commented-out Bold and BoldItalic pairs are not part of it. */
  const FontList: seq<(string, string)> := [
    ("KaTeX_AMS-Regular.ttf", "FiraMath-AMS-Regular.otf"),
    ("KaTeX_Main-Italic.ttf", "FiraMath-Italic.otf"),
    ("KaTeX_Main-Regular.ttf", "FiraMath-Regular.otf"),
    ("KaTeX_Math-Italic.ttf", "FiraMath-Italic.otf"),
    ("KaTeX_Size1-Regular.ttf", "FiraMath-SIZEONE.otf"),
    ("KaTeX_Size2-Regular.ttf", "FiraMath-SIZETWO.otf"),
    ("KaTeX_Size3-Regular.ttf", "FiraMath-SIZETHREE.otf"),
    ("KaTeX_Size4-Regular.ttf", "FiraMath-SIZEFOUR.otf")
  ]

  /** The driver loop: one `createsubset` per pair, in list order. */
  function Plan(fontList: seq<(string, string)>): (jobs: seq<SubsetJob>)
    ensures |jobs| == |fontList|
    ensures forall i :: 0 <= i < |jobs| ==>
      jobs[i].reference == fontList[i].0 && jobs[i].template == fontList[i].1
    ensures forall i :: 0 <= i < |jobs| ==> jobs[i] == CreateSubset(fontList[i].0, fontList[i].1)
  {
    seq(|fontList|, i requires 0 <= i < |fontList| => CreateSubset(fontList[i].0, fontList[i].1))
  }

  /** The style and weight parts of each entry of FontList. */
  const FontListParts: seq<(string, string)> := [
    ("AMS", "Regular"),
    ("Main", "Italic"),
    ("Main", "Regular"),
    ("Math", "Italic"),
    ("Size1", "Regular"),
    ("Size2", "Regular"),
    ("Size3", "Regular"),
    ("Size4", "Regular")
  ]

  /** Entry i of FontList is `KaTeX_<style>-<weight>.ttf` for entry i of FontListParts. */
  lemma FontListEntry(i: nat)
    requires i < |FontList|
    ensures i < |FontListParts| && FontList[i].0 == KatexFile(FontListParts[i].0, FontListParts[i].1)
  {
    match i
    case 0 => assert FontList[0].0 == KatexFile("AMS", "Regular");
    case 1 => assert FontList[1].0 == KatexFile("Main", "Italic");
    case 2 => assert FontList[2].0 == KatexFile("Main", "Regular");
    case 3 => assert FontList[3].0 == KatexFile("Math", "Italic");
    case 4 => assert FontList[4].0 == KatexFile("Size1", "Regular");
    case 5 => assert FontList[5].0 == KatexFile("Size2", "Regular");
    case 6 => assert FontList[6].0 == KatexFile("Size3", "Regular");
    case 7 => assert FontList[7].0 == KatexFile("Size4", "Regular");
  }

  /** Every reference file of FontList follows the `KaTeX_<style>-<weight>.ttf`
      convention with separator-free parts, and no (style, weight) pair repeats. */
  lemma FontListShape()
    ensures |FontListParts| == |FontList|
    ensures forall i :: 0 <= i < |FontList| ==>
      Plain(FontListParts[i].0) && Plain(FontListParts[i].1) &&
      FontList[i].0 == KatexFile(FontListParts[i].0, FontListParts[i].1)
    ensures forall i, j :: 0 <= i < j < |FontListParts| ==> FontListParts[i] != FontListParts[j]
  {
    forall i | 0 <= i < |FontList|
      ensures FontList[i].0 == KatexFile(FontListParts[i].0, FontListParts[i].1)
    {
      FontListEntry(i);
    }
  }

  /** What the driver derives for entry i of FontList. */
  lemma PlanEntry(i: nat)
    requires i < |FontList|
    ensures var jobs := Plan(FontList);
      var (style, weight) := FontListParts[i];
      i < |jobs| && i < |FontListParts| &&
      jobs[i].output == "FiraMath_" + style + "-" + weight + ".otf" &&
      jobs[i].family == "FiraMath_" + style && jobs[i].subfamily == weight
  {
    FontListShape();
    var (style, weight) := FontListParts[i];
    var jobs := Plan(FontList);
    assert jobs[i] == CreateSubset(KatexFile(style, weight), FontList[i].1);
    DeriveFromKatexFile(style, weight);
  }

  /** For every active entry, the full name and PostScript name written
      ("family-subfamily") are the output file name without ".otf". */
  lemma FontListFullNames()
    ensures var jobs := Plan(FontList);
      |jobs| == 8 &&
      forall i :: 0 <= i < |jobs| ==>
        NameTable.FullName(jobs[i].family, jobs[i].subfamily) + ".otf" == jobs[i].output
  {
    var jobs := Plan(FontList);
    forall i | 0 <= i < |jobs|
      ensures NameTable.FullName(jobs[i].family, jobs[i].subfamily) + ".otf" == jobs[i].output
    {
      PlanEntry(i);
    }
  }

  /** Helper for AmsDerivation and Size1Derivation: the concrete file names
      they mention, spelled out from their parts. */
  lemma ConcreteNames()
    ensures "KaTeX_AMS-Regular.ttf" == KatexFile("AMS", "Regular")
    ensures "FiraMath_" + "AMS" + "-" + "Regular" + ".otf" == "FiraMath_AMS-Regular.otf"
    ensures "FiraMath_" + "AMS" == "FiraMath_AMS"
    ensures "KaTeX_Size1-Regular.ttf" == KatexFile("Size1", "Regular")
    ensures "FiraMath_" + "Size1" + "-" + "Regular" + ".otf" == "FiraMath_Size1-Regular.otf"
  {
  }

  /** `KaTeX_AMS-Regular.ttf` (the first entry of FontList) yields the output
      file FiraMath_AMS-Regular.otf, where the weight is kept, the family
      FiraMath_AMS and the subfamily Regular. */
  // The path is a parameter pinned by `requires` so that `Split` is not unfolded on a literal.
  lemma AmsDerivation(katexPath: string)
    requires katexPath == "KaTeX_AMS-Regular.ttf"
    ensures FontStyle(katexPath) == "Regular"
    ensures OutputName(katexPath) == "FiraMath_AMS-Regular.otf"
    ensures FamilyName(OutputName(katexPath)) == "FiraMath_AMS"
  {
    ConcreteNames();
    DeriveFromKatexFile("AMS", "Regular");
  }

  /** `KaTeX_Size1-Regular.ttf` yields the subfamily Regular and the output
      file FiraMath_Size1-Regular.otf. */
  // The path is a parameter pinned by `requires` so that `Split` is not unfolded on a literal.
  lemma Size1Derivation(katexPath: string)
    requires katexPath == "KaTeX_Size1-Regular.ttf"
    ensures FontStyle(katexPath) == "Regular"
    ensures OutputName(katexPath) == "FiraMath_Size1-Regular.otf"
  {
    ConcreteNames();
    DeriveFromKatexFile("Size1", "Regular");
  }

  /** No two active entries write the same output file; in particular
      Main-Italic and Math-Italic stay apart. */
  lemma FontListOutputsDistinct()
    ensures var jobs := Plan(FontList);
      forall i, j :: 0 <= i < j < |jobs| ==> jobs[i].output != jobs[j].output
  {
    var jobs := Plan(FontList);
    FontListShape();
    forall i, j | 0 <= i < j < |jobs|
      ensures jobs[i].output != jobs[j].output
    {
      PlanEntry(i);
      PlanEntry(j);
      var (style, weight) := FontListParts[i];
      var (style', weight') := FontListParts[j];
      if jobs[i].output == jobs[j].output {
        OutputFileInjective(style, weight, style', weight');
      }
    }
  }
}
