/**
 * How the application tidies the configuration the setup screen produces
 * before it builds a game, and how it turns `initialTiles` into the argument
 * the game state receives. Configuration values are JavaScript values; their
 * numbers are integers here.
 */
module AppConfig {
  import opened Common
  import GameStates

  datatype JsValue =
    | Undefined
    | Null
    | Bool(b: bool)
    | Num(n: int)
    | Str(s: string)
    | Arr(items: seq<JsValue>)
    | Obj(fields: map<string, JsValue>)

  /** JavaScript truthiness: `undefined`, `null`, `false`, 0 and "" are falsy. */
  predicate Truthy(v: JsValue) {
    match v
    case Undefined => false
    case Null => false
    case Bool(b) => b
    case Num(n) => n != 0
    case Str(s) => s != ""
    case Arr(_) => true
    case Obj(_) => true
  }

  /** `typeof v === 'object' && v !== null`: arrays are objects too. */
  predicate IsObject(v: JsValue) {
    v.Arr? || v.Obj?
  }

  /** `v.key`: a missing property, or any property of a non-object, is `undefined`. */
  function Get(v: JsValue, key: string): JsValue {
    if v.Obj? && key in v.fields then v.fields[key] else Undefined
  }

  /** `a || b`. */
  function Or(a: JsValue, b: JsValue): (r: JsValue)
    ensures Truthy(a) ==> r == a
    ensures !Truthy(a) ==> r == b
  {
    if Truthy(a) then a else b
  }

  predicate AllDigits(s: string) {
    forall i :: 0 <= i < |s| ==> '0' <= s[i] <= '9'
  }

  /** The value of a string of decimal digits. */
  function DigitsValue(s: string): nat
    requires AllDigits(s)
  {
    if s == "" then 0 else DigitsValue(s[..|s| - 1]) * 10 + (s[|s| - 1] - '0') as int
  }

  /**
   * `Number(s)` for a string: "" is 0, an optionally signed run of decimal
   * digits is its value, anything else is NaN (`None`).
   */
  function StringToNumber(s: string): Option<int> {
    if s == "" then Some(0)
    else if (s[0] == '-' || s[0] == '+') && |s| > 1 && AllDigits(s[1..]) then
      var d: int := DigitsValue(s[1..]);
      Some(if s[0] == '-' then -d else d)
    else if AllDigits(s) then Some(DigitsValue(s))
    else None
  }

  /**
   * `Number(v)`; `None` is NaN. An array converts through its text, the elements
   * joined by commas with `null` and `undefined` as "": empty it is 0, with one
   * element it is that element's text read as a number, and with more the comma
   * makes it NaN.
   */
  function ToNumber(v: JsValue): Option<int> {
    match v
    case Undefined => None
    case Null => Some(0)
    case Bool(b) => Some(if b then 1 else 0)
    case Num(n) => Some(n)
    case Str(s) => StringToNumber(s)
    case Arr(items) =>
      if items == [] then Some(0)
      else if |items| == 1 then
        (if items[0].Undefined? || items[0].Null? then Some(0)
         else if items[0].Bool? then None
         else ToNumber(items[0]))
      else None
    case Obj(_) => None
  }

  /**
   * A count given inside arrays converts as JavaScript does: `[null]`, `[undefined]`
   * and `[[]]` are 0, `[[5]]` is 5, `[true]` and `[1, 2]` are NaN; so
   * `{count: [[5]]}` asks for five random tiles.
   */
  lemma ArrayCounts()
    ensures ToNumber(Arr([Null])) == Some(0) && ToNumber(Arr([Undefined])) == Some(0)
    ensures ToNumber(Arr([Arr([])])) == Some(0) && ToNumber(Arr([Arr([Num(5)])])) == Some(5)
    ensures ToNumber(Arr([Bool(true)])).None? && ToNumber(Arr([Num(1), Num(2)])).None?
    ensures NormalizeInitialTiles(Obj(map["count" := Arr([Arr([Num(5)])])])) == RandomTiles(5)
  {
    var v := Obj(map["count" := Arr([Arr([Num(5)])])]);
    assert Get(v, "count") == Arr([Arr([Num(5)])]);
    assert !AsksArrangement(v);
  }

  /** `{type: 'arrangement', style}`. */
  function Arrangement(style: JsValue): JsValue {
    Obj(map["type" := Str("arrangement"), "style" := style])
  }

  /** `{type: 'random', count}`. */
  function RandomTiles(count: int): JsValue {
    Obj(map["type" := Str("random"), "count" := Num(count)])
  }

  /** `{name}`. */
  function Named(name: JsValue): JsValue {
    Obj(map["name" := name])
  }

  /** `initialTiles` asks for an arrangement: an object whose `type` is 'arrangement'. */
  predicate AsksArrangement(v: JsValue) {
    IsObject(v) && Get(v, "type") == Str("arrangement")
  }

  /** How many random tiles `initialTiles` asks for: a number itself, an object's `count`. */
  function RequestedCount(v: JsValue): Option<int> {
    if IsObject(v) then ToNumber(Or(Get(v, "count"), Num(0)))
    else if v.Num? then Some(v.n)
    else Some(0)
  }

  predicate Positive(n: Option<int>) {
    n.Some? && n.value > 0
  }

  /** The three shapes `initialTiles` has once normalised. */
  predicate NormalTiles(v: JsValue) {
    v.Num?
    || (v.Obj? && "style" in v.fields && Truthy(v.fields["style"]) && v == Arrangement(v.fields["style"]))
    || (v.Obj? && "count" in v.fields && v.fields["count"].Num? && v.fields["count"].n > 0
        && v == RandomTiles(v.fields["count"].n))
  }

  /**
   * `initialTiles` normalised: a number is kept, an arrangement keeps its
   * style (or gets the border style), any other object becomes a random
   * request for its positive count (or 0), and anything else becomes 0.
   */
  function NormalizeInitialTiles(v: JsValue): (r: JsValue)
    ensures NormalTiles(r)
    ensures v.Num? ==> r == v
    ensures AsksArrangement(v) ==> r == Arrangement(Or(Get(v, "style"), Str("border")))
    ensures IsObject(v) && !AsksArrangement(v) ==>
              r == (if Positive(RequestedCount(v)) then RandomTiles(RequestedCount(v).value) else Num(0))
    ensures !IsObject(v) && !v.Num? ==> r == Num(0)
  {
    if v.Num? then v
    else if Truthy(v) && IsObject(v) then
      if Get(v, "type") == Str("arrangement") then
        var style := Or(Get(v, "style"), Str("border"));
        assert Truthy(style);
        Arrangement(style)
      else
        var c := ToNumber(Or(Get(v, "count"), Num(0)));
        if c.Some? && c.value > 0 then RandomTiles(c.value) else Num(0)
    else Num(0)
  }

  /** A normalised player list: a non-empty array whose first entry is not a string. */
  predicate NormalPlayers(v: JsValue) {
    v.Arr? && |v.items| > 0 && !v.items[0].Str?
  }

  /**
   * `players` normalised: a missing, non-array or empty value becomes one
   * player called 'Player 1'; an array starting with a string becomes one
   * `{name}` object per entry; any other array is kept.
   */
  function NormalizePlayers(v: JsValue): (r: JsValue)
    ensures NormalPlayers(r)
    ensures !v.Arr? || v.items == [] ==> r == Arr([Named(Str("Player 1"))])
    ensures v.Arr? && v.items != [] && !v.items[0].Str? ==> r == v
    ensures v.Arr? && v.items != [] && v.items[0].Str? ==>
              r.Arr? && |r.items| == |v.items| &&
              forall i :: 0 <= i < |v.items| ==> r.items[i] == Named(v.items[i])
  {
    if !Truthy(v) || !v.Arr? || |v.items| == 0 then Arr([Named(Str("Player 1"))])
    else if v.items[0].Str? then Arr(seq(|v.items|, i requires 0 <= i < |v.items| => Named(v.items[i])))
    else v
  }

  /**
   * The configuration object: the fields `_normalizeConfig` looks at, each
   * `Undefined` when missing, and every other field (the tile-set, ruleset
   * and scoring options among them) by name.
   */
  datatype Config = Config(
    initialTiles: JsValue,
    players: JsValue,
    ruleset: JsValue,
    tileSet: JsValue,
    boardSize: JsValue,
    rackSize: JsValue,
    enableTimer: JsValue,
    timeLimit: JsValue,
    others: map<string, JsValue>)

  /** A configuration every field of which `_normalizeConfig` would change is already in shape. */
  predicate Normal(c: Config) {
    NormalTiles(c.initialTiles)
    && NormalPlayers(c.players)
    && Truthy(c.ruleset) && Truthy(c.tileSet)
    && Truthy(c.boardSize) && Truthy(c.rackSize)
    && c.enableTimer.Bool?
    && Truthy(c.timeLimit)
  }

  /**
   * `_normalizeConfig`: a copy of the configuration with `initialTiles` and
   * `players` normalised, a falsy ruleset, tile set, board size, rack size or
   * time limit replaced by 'basic', 'streets', 9, 5 or 60, and the timer flag
   * made a boolean. Every other field is copied unchanged.
   */
  function NormalizeConfig(c: Config): (r: Config)
    ensures Normal(r)
    ensures r.others == c.others
    ensures r.initialTiles == NormalizeInitialTiles(c.initialTiles)
    ensures r.players == NormalizePlayers(c.players)
    ensures r.ruleset == (if Truthy(c.ruleset) then c.ruleset else Str("basic"))
    ensures r.tileSet == (if Truthy(c.tileSet) then c.tileSet else Str("streets"))
    ensures r.boardSize == (if Truthy(c.boardSize) then c.boardSize else Num(9))
    ensures r.rackSize == (if Truthy(c.rackSize) then c.rackSize else Num(5))
    ensures r.enableTimer == Bool(Truthy(c.enableTimer))
    ensures r.timeLimit == (if Truthy(c.timeLimit) then c.timeLimit else Num(60))
  {
    c.(initialTiles := NormalizeInitialTiles(c.initialTiles),
       players := NormalizePlayers(c.players),
       ruleset := Or(c.ruleset, Str("basic")),
       tileSet := Or(c.tileSet, Str("streets")),
       boardSize := Or(c.boardSize, Num(9)),
       rackSize := Or(c.rackSize, Num(5)),
       enableTimer := Bool(Truthy(c.enableTimer)),
       timeLimit := Or(c.timeLimit, Num(60)))
  }

  /** A configuration already in shape is its own normalisation. */
  lemma NormalFixed(c: Config)
    requires Normal(c)
    ensures NormalizeConfig(c) == c
  {
  }

  /** Normalising twice is normalising once. */
  lemma NormalizeIdempotent(c: Config)
    ensures NormalizeConfig(NormalizeConfig(c)) == NormalizeConfig(c)
  {
  }

  /**
   * The `initialTiles` argument `_buildGame` hands the game state: an
   * arrangement with its style (or the border style), a random request for a
   * positive count that carries the style along when it is truthy, or `null`
   * (`None`).
   */
  function InitialTilesArg(v: JsValue): (r: Option<JsValue>)
    ensures AsksArrangement(v) ==> r == Some(Arrangement(Or(Get(v, "style"), Str("border"))))
    ensures !AsksArrangement(v) && !Positive(RequestedCount(v)) ==> r == None
    ensures !AsksArrangement(v) && Positive(RequestedCount(v)) ==>
              r.Some? && Get(r.value, "type") == Str("random") && Get(r.value, "count") == Num(RequestedCount(v).value)
              && Get(r.value, "style") == (if Truthy(Get(v, "style")) then Get(v, "style") else Undefined)
  {
    var isObj := IsObject(v);
    var isArrangement := isObj && Get(v, "type") == Str("arrangement");
    var randomCount := if isObj then ToNumber(Or(Get(v, "count"), Num(0)))
                       else if v.Num? then Some(v.n) else Some(0);
    if isArrangement then Some(Arrangement(Or(Get(v, "style"), Str("border"))))
    else if randomCount.Some? && randomCount.value > 0 then
      if Truthy(Get(v, "style")) then
        Some(Obj(map["type" := Str("random"), "count" := Num(randomCount.value), "style" := Get(v, "style")]))
      else Some(RandomTiles(randomCount.value))
    else None
  }

  /**
   * What a game built from a configuration gets as its initial tiles: the
   * arrangement asked for, or a random request for the count asked for when
   * that is positive, without any style, since normalisation drops it; and
   * otherwise nothing.
   */
  lemma ArgOfNormalized(c: Config)
    ensures var v := c.initialTiles;
            InitialTilesArg(NormalizeConfig(c).initialTiles) ==
            if AsksArrangement(v) then Some(Arrangement(Or(Get(v, "style"), Str("border"))))
            else if Positive(RequestedCount(v)) then Some(RandomTiles(RequestedCount(v).value))
            else None
  {
  }

  /** The game state's view of an `initialTiles` object: its `type`, `count` and `style`. */
  function AsTilesConfig(v: JsValue): GameStates.InitialTilesConfig {
    if v.Num? then GameStates.TileCount(v.n)
    else
      GameStates.Arrangement(
        if Get(v, "type").Str? then Some(Get(v, "type").s) else None,
        if Get(v, "count").Num? then Some(Get(v, "count").n) else None,
        if Get(v, "style").Str? then Some(Get(v, "style").s) else None)
  }

  /**
   * Every argument `_buildGame` passes on gets past the game state's guard in
   * `initializeBoard`, since it always has a non-empty `type`.
   */
  lemma ArgPassesGuard(v: JsValue)
    requires InitialTilesArg(v).Some?
    ensures GameStates.PassesGuard(AsTilesConfig(InitialTilesArg(v).value))
  {
  }
}
