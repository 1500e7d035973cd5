/**
 * The planner's configuration: the built-in defaults, the recursive merge of
 * a user's overrides into them (`deep_merge`), and the numbers the planner
 * reads from the merged configuration.
 */
module PlannerConfig {
  import opened Wrappers
  import opened JsonValue

  /** `deep_merge(target, source)`: source entries win, except that two dicts merge key by key. */
  function DeepMerge(target: map<string, Json>, source: map<string, Json>): (r: map<string, Json>)
    ensures r.Keys == target.Keys + source.Keys
    decreases JObj(source)
  {
    map k | k in target.Keys + source.Keys ::
      if k in source then MergeEntry(target, source, k) else target[k]
  }

  /** The value `deep_merge` leaves at a key of `source`. */
  function MergeEntry(target: map<string, Json>, source: map<string, Json>, k: string): Json
    requires k in source
    decreases JObj(source), 0
  {
    if source[k].JObj? && k in target && target[k].JObj? then
      assert source[k] == JObj(source[k].fields);
      JObj(DeepMerge(target[k].fields, source[k].fields))
    else source[k]
  }

  /** `target` once the keys `done` of `source` have been merged in. */
  function Partial(target: map<string, Json>, source: map<string, Json>, done: set<string>): map<string, Json>
    requires done <= source.Keys
  {
    map k | k in target.Keys + done :: if k in done then MergeEntry(target, source, k) else target[k]
  }

  /** `deep_merge` as written: a loop over the entries of `source` that updates `target`. */
  method DeepMergeInto(target: map<string, Json>, source: map<string, Json>) returns (r: map<string, Json>)
    ensures r == DeepMerge(target, source)
    decreases JObj(source)
  {
    r := target;
    var todo := source.Keys;
    while todo != {}
      invariant todo <= source.Keys
      invariant r == Partial(target, source, source.Keys - todo)
      decreases todo
    {
      var k :| k in todo;
      var value := source[k];
      assert k !in source.Keys - todo;
      if value.JObj? && k in r && r[k].JObj? {
        assert value == JObj(value.fields);
        var merged := DeepMergeInto(r[k].fields, value.fields);
        r := r[k := JObj(merged)];
      } else {
        r := r[k := value];
      }
      todo := todo - {k};
    }
  }

  /** `d[p0][p1]...`, None where a key is missing or a value on the way is not a dict. */
  function Lookup(m: map<string, Json>, path: seq<string>): Option<Json>
    requires path != []
    decreases |path|
  {
    if path[0] !in m then None
    else if |path| == 1 then Some(m[path[0]])
    else match m[path[0]]
      case JObj(fields) => Lookup(fields, path[1..])
      case _ => None
  }

  /** Every setting the user gives that is not itself a dict is the one in effect after the merge. */
  lemma {:induction false} UserSettingWins(target: map<string, Json>, source: map<string, Json>, path: seq<string>)
    requires path != []
    requires Lookup(source, path).Some? && !Lookup(source, path).value.JObj?
    ensures Lookup(DeepMerge(target, source), path) == Lookup(source, path)
    decreases |path|
  {
    var k := path[0];
    var r := DeepMerge(target, source);
    if |path| > 1 {
      var inner := source[k].fields;
      assert source[k].JObj?;
      assert r[k] == MergeEntry(target, source, k);
      if k in target && target[k].JObj? {
        assert r[k] == JObj(DeepMerge(target[k].fields, inner));
        UserSettingWins(target[k].fields, inner, path[1..]);
      }
    }
  }

  /** A section the user does not mention keeps its defaults. */
  lemma DefaultKept(target: map<string, Json>, source: map<string, Json>, path: seq<string>)
    requires path != [] && path[0] !in source
    ensures Lookup(DeepMerge(target, source), path) == Lookup(target, path)
  {
    var r := DeepMerge(target, source);
    if path[0] in target {
      assert r[path[0]] == target[path[0]];
    }
  }

  /** Merging the same overrides a second time changes nothing. */
  lemma {:induction false} DeepMergeIdempotent(target: map<string, Json>, source: map<string, Json>)
    ensures DeepMerge(DeepMerge(target, source), source) == DeepMerge(target, source)
    decreases JObj(source)
  {
    var once := DeepMerge(target, source);
    var twice := DeepMerge(once, source);
    forall k | k in twice.Keys ensures twice[k] == once[k] {
      if k in source && source[k].JObj? && k in once && once[k].JObj? {
        assert source[k] == JObj(source[k].fields);
        if k in target && target[k].JObj? {
          DeepMergeIdempotent(target[k].fields, source[k].fields);
        } else {
          assert once[k] == source[k];
          MergeIntoItself(source[k].fields);
        }
      }
    }
  }

  /** Merging a dict into itself gives it back. */
  lemma {:induction false} MergeIntoItself(m: map<string, Json>)
    ensures DeepMerge(m, m) == m
    decreases JObj(m)
  {
    var r := DeepMerge(m, m);
    forall k | k in m ensures r[k] == m[k] {
      if m[k].JObj? {
        assert m[k] == JObj(m[k].fields);
        MergeIntoItself(m[k].fields);
      }
    }
  }

  const ImageDefaultWidthCm: real := 10.145
  const ImageMinHeightCm: real := 5.35

  /** The built-in configuration of `load_config`. */
  function DefaultConfig(): map<string, Json> {
    map[
      "title" := JObj(map[
        "pt_base" := JNum(25.0), "pt_min" := JNum(24.0), "pt_max" := JNum(26.0),
        "leading_factor" := JNum(1.08), "char_width_factor" := JNum(0.36), "spacing_after_pt" := JNum(8.0)]),
      "body" := JObj(map[
        "pt_base" := JNum(9.5), "pt_min" := JNum(9.0), "pt_max" := JNum(10.0),
        "leading_factor" := JNum(1.2), "char_width_factor" := JNum(0.42), "spacing_after_pt" := JNum(6.0)]),
      "note_spacing_pt" := JNum(10.0),
      "image" := JObj(map[
        "width_cm" := JNum(ImageDefaultWidthCm), "min_height_cm" := JNum(ImageMinHeightCm), "spacing_pt" := JNum(6.0)]),
      "column" := JObj(map["gutter_pt" := JNum(12.0)])
    ]
  }

  /** Sizes and spacing of one text style (title or body). */
  datatype TextStyle = TextStyle(base: real, min: real, max: real, spacing: real)

  /** Width, minimum height and spacing of a note's image. */
  datatype ImageStyle = ImageStyle(widthCm: real, minHeightCm: real, spacing: real)

  /** The numbers the planner reads from its configuration. */
  datatype Settings = Settings(
    title: TextStyle, body: TextStyle, image: ImageStyle,
    noteSpacing: real, gutter: real, charWidthFactor: real, leadingFactor: real)

  /** `config.get(key, {})`, which must be a dict for its own `.get` to work. */
  function Section(config: map<string, Json>, key: string): (r: Option<map<string, Json>>)
    ensures key !in config ==> r == Some(map[])
    ensures key in config ==> (r.Some? <==> config[key].JObj?)
    ensures key in config && config[key].JObj? ==> r == Some(config[key].fields)
  {
    match Get(config, key, JObj(map[]))
    case JObj(fields) => Some(fields)
    case _ => None
  }

  /** `float(section.get(key, default))`. */
  function Setting(section: map<string, Json>, key: string, default: real, parseFloat: string -> Option<real>): (r: Option<real>)
    ensures key !in section ==> r == Some(default)
    ensures key in section ==> r == AsFloat(section[key], parseFloat)
  {
    AsFloat(Get(section, key, JNum(default)), parseFloat)
  }

  /** `pt_base`, `pt_min`, `pt_max` and `spacing_after_pt` of a text section. */
  function ReadTextStyle(section: map<string, Json>, default: TextStyle, parseFloat: string -> Option<real>): (r: Option<TextStyle>)
    ensures r.Some? <==>
      && Setting(section, "pt_base", default.base, parseFloat).Some?
      && Setting(section, "pt_min", default.min, parseFloat).Some?
      && Setting(section, "pt_max", default.max, parseFloat).Some?
      && Setting(section, "spacing_after_pt", default.spacing, parseFloat).Some?
    ensures section == map[] ==> r == Some(default)
  {
    match (Setting(section, "pt_base", default.base, parseFloat), Setting(section, "pt_min", default.min, parseFloat),
           Setting(section, "pt_max", default.max, parseFloat), Setting(section, "spacing_after_pt", default.spacing, parseFloat))
    case (Some(base), Some(min), Some(max), Some(spacing)) => Some(TextStyle(base, min, max, spacing))
    case _ => None
  }

  const DefaultTitle: TextStyle := TextStyle(25.0, 24.0, 26.0, 8.0)
  const DefaultBody: TextStyle := TextStyle(9.5, 9.0, 10.0, 6.0)
  const DefaultImage: ImageStyle := ImageStyle(ImageDefaultWidthCm, ImageMinHeightCm, 6.0)

  /** `width_cm`, `min_height_cm` and `spacing_pt` of the image section. */
  function ReadImageStyle(section: map<string, Json>, parseFloat: string -> Option<real>): (r: Option<ImageStyle>)
    ensures r.Some? <==>
      && Setting(section, "width_cm", DefaultImage.widthCm, parseFloat).Some?
      && Setting(section, "min_height_cm", DefaultImage.minHeightCm, parseFloat).Some?
      && Setting(section, "spacing_pt", DefaultImage.spacing, parseFloat).Some?
    ensures section == map[] ==> r == Some(DefaultImage)
  {
    match (Setting(section, "width_cm", DefaultImage.widthCm, parseFloat),
           Setting(section, "min_height_cm", DefaultImage.minHeightCm, parseFloat),
           Setting(section, "spacing_pt", DefaultImage.spacing, parseFloat))
    case (Some(width), Some(height), Some(spacing)) => Some(ImageStyle(width, height, spacing))
    case _ => None
  }

  /** The gutter from "column" and the character width and leading from "body". */
  function ReadColumnFactors(config: map<string, Json>, body: map<string, Json>, parseFloat: string -> Option<real>): (r: Option<(real, real)>)
    ensures ("column" !in config || !config["column"].JObj?) && r.Some? ==> r.value.0 == 12.0
    ensures body == map[] && r.Some? ==> r.value.1 == 0.42
  {
    var column := if "column" in config && config["column"].JObj? then config["column"].fields else map[];
    match (Setting(column, "gutter_pt", 12.0, parseFloat), Setting(body, "char_width_factor", 0.42, parseFloat))
    case (Some(gutter), Some(charWidth)) => Some((gutter, charWidth))
    case _ => None
  }

  /**
   * The settings named in the planner with the defaults written at each use:
   * sizes 25/24/26 and 9.5/9/10 pt, spacings 8, 6 and 6 pt, image 10.145 by
   * 5.35 cm, 10 pt between notes, 12 pt gutter, and the column model's
   * character width 0.42 and leading 1.2 taken from the body section (the
   * gutter falls back to its default when "column" is not a dict). None where
   * a section is not a dict or a present value does not convert.
   */
  function ReadSettings(config: map<string, Json>, parseFloat: string -> Option<real>): (r: Option<Settings>)
    ensures r.Some? ==> Section(config, "title").Some? && Section(config, "body").Some? && Section(config, "image").Some?
    ensures r.Some? && "title" !in config ==> r.value.title == DefaultTitle
    ensures r.Some? && "body" !in config ==> r.value.body == DefaultBody
    ensures r.Some? && "image" !in config ==> r.value.image == DefaultImage
    ensures r.Some? && ("column" !in config || !config["column"].JObj?) ==> r.value.gutter == 12.0
  {
    var sections := [Section(config, "title"), Section(config, "body"), Section(config, "image")];
    if sections[0].None? || sections[1].None? || sections[2].None? then None
    else
      var title := ReadTextStyle(sections[0].value, DefaultTitle, parseFloat);
      var body := ReadTextStyle(sections[1].value, DefaultBody, parseFloat);
      var image := ReadImageStyle(sections[2].value, parseFloat);
      var factors := ReadColumnFactors(config, sections[1].value, parseFloat);
      var noteSpacing := Setting(config, "note_spacing_pt", 10.0, parseFloat);
      var leading := Setting(sections[1].value, "leading_factor", 1.2, parseFloat);
      if title.None? || body.None? || image.None? || factors.None? || noteSpacing.None? || leading.None? then None
      else Some(Settings(title.value, body.value, image.value, noteSpacing.value,
        factors.value.0, factors.value.1, leading.value))
  }

  lemma DefaultStyles(parseFloat: string -> Option<real>)
    ensures ReadTextStyle(DefaultConfig()["title"].fields, DefaultTitle, parseFloat) == Some(DefaultTitle)
    ensures ReadTextStyle(DefaultConfig()["body"].fields, DefaultBody, parseFloat) == Some(DefaultBody)
    ensures ReadImageStyle(DefaultConfig()["image"].fields, parseFloat) == Some(DefaultImage)
  {
  }

  lemma DefaultNumbers(parseFloat: string -> Option<real>)
    ensures ReadColumnFactors(DefaultConfig(), DefaultConfig()["body"].fields, parseFloat) == Some((12.0, 0.42))
    ensures Setting(DefaultConfig(), "note_spacing_pt", 10.0, parseFloat) == Some(10.0)
    ensures Setting(DefaultConfig()["body"].fields, "leading_factor", 1.2, parseFloat) == Some(1.2)
  {
  }

  /** The built-in configuration gives the documented defaults. */
  lemma DefaultSettings(parseFloat: string -> Option<real>)
    ensures ReadSettings(DefaultConfig(), parseFloat) == Some(Settings(
      DefaultTitle, DefaultBody, DefaultImage, 10.0, 12.0, 0.42, 1.2))
  {
    var c := DefaultConfig();
    assert Section(c, "title") == Some(c["title"].fields);
    assert Section(c, "body") == Some(c["body"].fields);
    assert Section(c, "image") == Some(c["image"].fields);
    DefaultStyles(parseFloat);
    DefaultNumbers(parseFloat);
  }

  /**
   * `load_config`: the defaults, or the defaults with the user's file merged
   * in; a file that could not be read leaves the defaults (None), a file
   * whose top level is not an object makes the merge fail (None result).
   */
  function LoadConfig(user: Option<Json>): (r: Option<map<string, Json>>)
    ensures user.None? ==> r == Some(DefaultConfig())
    ensures user.Some? ==> (r.Some? <==> user.value.JObj?)
    ensures r.Some? ==> DefaultConfig().Keys <= r.value.Keys
  {
    match user
    case None => Some(DefaultConfig())
    case Some(JObj(fields)) => Some(DeepMerge(DefaultConfig(), fields))
    case Some(_) => None
  }
}
