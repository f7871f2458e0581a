/** Wishes, protocol/src/wish.rs: what they may say and their canonical bytes. */
module Wishes {
  import opened Bytes
  import opened Hashing
  import opened Options

  const VERSION: u8 := 0
  const MAX_LIFETIME: nat := 288
  const MAX_HYPOTHESIS_PARAMS: nat := 32
  const GIFT_KINDS: nat := 6

  datatype WeatherKind = Rain | Drought

  datatype Source = Museum | SporeBank

  datatype CladeAction = Shelter | Forage | Cure | Gift(kind: u8) | Blight | Expose | Sickness

  datatype Place = Place(x: u8, y: u8)

  datatype Action =
    | Weather(at: Place, kind: WeatherKind)
    | Migrate(cladeId: u32, from: Place, to: Place)
    | Revive(source: Source, entryId: u32, steps: seq<Place>, at: Place)
    | Clade(action: CladeAction, cladeId: u32, at: Place)
    | Hybrid(cladeA: u32, cladeB: u32, at: Place)

  datatype Hypothesis = Hypothesis(template: u16, params: seq<u8>)

  datatype Name = Name(genus: u16, epithet: u16)

  type Id16 = b: seq<u8> | |b| == 16 witness seq(16, _ => 0)
  type Id32 = b: seq<u8> | |b| == 32 witness seq(32, _ => 0)

  datatype Wish = Wish(worldId: Id16, rulesetId: Id32, action: Action, author: Id32, createdEpoch: u64, expiresEpoch: u64,
    hypothesis: Option<Hypothesis>, name: Option<Name>)

  /** The action's code on the wire. */
  function Code(a: Action): (code: u8)
    ensures code <= 10
  {
    match a
    case Weather(_, _) => 0
    case Migrate(_, _, _) => 1
    case Revive(_, _, _, _) => 2
    case Hybrid(_, _, _) => 7
    case Clade(action, _, _) =>
      match action
      case Shelter => 3 case Forage => 4 case Cure => 5 case Gift(_) => 6
      case Blight => 8 case Expose => 9 case Sickness => 10
  }

  datatype Flaw = TooShort | BadVersion | BadWeatherKind | BadSource | TooManySteps | BadAction | BadHypothesis
    | HypothesisTooLong | BadName | TrailingBytes | BadLifetime | NameWithoutRevive | BadGift | CrossedWithItself

  /** The rules the encoding enforces besides the layout. */
  function Check(w: Wish): Option<Flaw> {
    if w.expiresEpoch <= w.createdEpoch || w.expiresEpoch - w.createdEpoch > MAX_LIFETIME then Some(BadLifetime)
    else if w.action.Revive? && |w.action.steps| > 2 then Some(TooManySteps)
    else if !w.action.Revive? && w.name.Some? then Some(NameWithoutRevive)
    else if w.action.Clade? && w.action.action.Gift? && w.action.action.kind >= GIFT_KINDS then Some(BadGift)
    else if w.action.Hybrid? && w.action.cladeA == w.action.cladeB then Some(CrossedWithItself)
    else if w.hypothesis.Some? && |w.hypothesis.value.params| > MAX_HYPOTHESIS_PARAMS then Some(HypothesisTooLong)
    else None
  }

  /** Its lifetime ends after it begins, and within a day of epochs. */
  predicate Lives(w: Wish) {
    w.createdEpoch < w.expiresEpoch <= w.createdEpoch + 288
  }

  predicate FewSteps(w: Wish) {
    w.action.Revive? ==> |w.action.steps| <= 2
  }

  /** A wish passes its check exactly when it lives for a while and not too long, edits a genome in two steps at most, names
      a clade only if it revives one, gives a gift there is, crosses a clade with another, and supposes little enough. */
  lemma ChecksExactly(w: Wish)
    ensures Check(w) == None <==>
      && Lives(w) && FewSteps(w) && (w.name.Some? ==> w.action.Revive?)
      && (w.action.Clade? && w.action.action.Gift? ==> w.action.action.kind <= 5)
      && (w.action.Hybrid? ==> w.action.cladeA != w.action.cladeB)
      && (w.hypothesis.Some? ==> |w.hypothesis.value.params| <= 32)
    ensures Check(w) == Some(BadLifetime) <==> !Lives(w)
    ensures Check(w) == Some(TooManySteps) <==> Lives(w) && !FewSteps(w)
    ensures Check(w) == Some(NameWithoutRevive) <==> Lives(w) && !w.action.Revive? && w.name != None
    ensures Check(w) == Some(BadGift) ==> w.action.Clade? && w.action.action.Gift? && w.action.action.kind >= 6
    ensures Check(w) == Some(CrossedWithItself) ==> w.action.Hybrid? && w.action.cladeA == w.action.cladeB
    ensures Check(w) == Some(HypothesisTooLong) ==>
      w.hypothesis.Some? && |w.hypothesis.value.params| >= 33
  {
  }

  // ---- The encoding ----

  function PlaceBytes(p: Place): seq<u8> {
    [p.x, p.y]
  }

  function StepsBytes(steps: seq<Place>): (bytes: seq<u8>)
    ensures |bytes| == 2 * |steps|
  {
    if steps == [] then [] else StepsBytes(steps[..|steps| - 1]) + PlaceBytes(steps[|steps| - 1])
  }

  function KindByte(kind: WeatherKind): u8 {
    if kind == Rain then 0 else 1
  }

  function SourceByte(source: Source): u8 {
    if source == Museum then 0 else 1
  }

  function GiftByte(action: CladeAction): seq<u8> {
    if action.Gift? then [action.kind] else []
  }

  function ParamBytes(a: Action): seq<u8>
    requires a.Revive? ==> |a.steps| <= 2
  {
    match a
    case Weather(at, kind) => PlaceBytes(at) + [KindByte(kind)]
    case Migrate(id, from, to) => Le(id, 4) + PlaceBytes(from) + PlaceBytes(to)
    case Revive(source, id, steps, at) => [SourceByte(source)] + Le(id, 4) + [|steps|] + StepsBytes(steps) + PlaceBytes(at)
    case Clade(action, id, at) => GiftByte(action) + Le(id, 4) + PlaceBytes(at)
    case Hybrid(a, b, at) => Le(a, 4) + Le(b, 4) + PlaceBytes(at)
  }

  function ActionBytes(a: Action): seq<u8>
    requires a.Revive? ==> |a.steps| <= 2
  {
    [Code(a)] + ParamBytes(a)
  }

  function HypothesisBytes(h: Option<Hypothesis>): seq<u8>
    requires h.Some? ==> |h.value.params| <= MAX_HYPOTHESIS_PARAMS
  {
    match h
    case None => [0]
    case Some(h) => [1] + Le(h.template, 2) + [|h.params|] + h.params
  }

  function NameBytes(name: Option<Name>): seq<u8> {
    match name
    case None => [0]
    case Some(n) => [1] + Le(n.genus, 2) + Le(n.epithet, 2)
  }

  /** The canonical bytes of a wish that passes its check. */
  function Encoding(w: Wish): seq<u8>
    requires Check(w) == None
  {
    [VERSION] + w.worldId + w.rulesetId + ActionBytes(w.action) + w.author + Le(w.createdEpoch, 8) + Le(w.expiresEpoch, 8)
      + HypothesisBytes(w.hypothesis) + NameBytes(w.name)
  }

  method AppendSteps(buffer: seq<u8>, steps: seq<Place>) returns (out: seq<u8>)
    ensures out == buffer + StepsBytes(steps)
  {
    out := buffer;
    for k := 0 to |steps|
      invariant out == buffer + StepsBytes(steps[..k])
    {
      assert steps[..k + 1][..k] == steps[..k];
      out := out + [steps[k].x, steps[k].y];
    }
    assert steps[..|steps|] == steps;
  }

  method Params(a: Action) returns (out: seq<u8>)
    requires a.Revive? ==> |a.steps| <= 2
    ensures out == ParamBytes(a)
  {
    hide Le, StepsBytes;
    match a {
      case Weather(at, kind) =>
        out := [at.x, at.y, KindByte(kind)];
      case Migrate(id, from, to) =>
        out := Le(id, 4);
        out := out + [from.x, from.y, to.x, to.y];
      case Revive(source, id, steps, at) =>
        out := [SourceByte(source)] + Le(id, 4) + [|steps|];
        out := AppendSteps(out, steps);
        out := out + [at.x, at.y];
      case Clade(action, id, at) =>
        out := if action.Gift? then [action.kind] else [];
        out := out + Le(id, 4) + [at.x, at.y];
      case Hybrid(a, b, at) =>
        out := Le(a, 4) + Le(b, 4) + [at.x, at.y];
    }
  }

  method AppendHypothesis(buffer: seq<u8>, h: Option<Hypothesis>) returns (out: seq<u8>)
    requires h.Some? ==> |h.value.params| <= MAX_HYPOTHESIS_PARAMS
    ensures out == buffer + HypothesisBytes(h)
  {
    hide Le;
    match h {
      case None => out := buffer + [0];
      case Some(h) => out := buffer + [1] + Le(h.template, 2) + [|h.params|] + h.params;
    }
  }

  method AppendName(buffer: seq<u8>, name: Option<Name>) returns (out: seq<u8>)
    ensures out == buffer + NameBytes(name)
  {
    hide Le;
    match name {
      case None => out := buffer + [0];
      case Some(n) => out := buffer + [1] + Le(n.genus, 2) + Le(n.epithet, 2);
    }
  }

  /** Appends the parts of a wish one after another. */
  method ToBytes(w: Wish) returns (out: seq<u8>)
    requires Check(w) == None
    ensures out == Encoding(w)
  {
    hide Le, ParamBytes, HypothesisBytes, NameBytes, Code;
    out := [VERSION] + w.worldId + w.rulesetId;
    var params := Params(w.action);
    out := out + ([Code(w.action)] + params);
    out := out + w.author + Le(w.createdEpoch, 8) + Le(w.expiresEpoch, 8);
    out := AppendHypothesis(out, w.hypothesis);
    out := AppendName(out, w.name);
  }

  // ---- Reading, from the front ----

  datatype Parsed<+T> = Read(value: T, rest: seq<u8>) | Failed(flaw: Flaw) {
    predicate IsFailure() {
      Failed?
    }

    function PropagateFailure<U>(): Parsed<U>
      requires Failed?
    {
      Failed(flaw)
    }

    function Extract(): (T, seq<u8>)
      requires Read?
    {
      (value, rest)
    }
  }

  function Take(b: seq<u8>, n: nat): (r: Parsed<seq<u8>>)
    ensures r.Read? ==> |r.value| == n && b == r.value + r.rest
  {
    if |b| < n then Failed(TooShort) else Read(b[..n], b[n..])
  }

  function TakeByte(b: seq<u8>): (r: Parsed<u8>)
    ensures r.Read? ==> b == [r.value] + r.rest
  {
    if b == [] then Failed(TooShort) else Read(b[0], b[1..])
  }

  function TakeLe(b: seq<u8>, width: nat): (r: Parsed<nat>)
    ensures r.Read? ==> r.value < Span(width) && b == Le(r.value, width) + r.rest
  {
    var (bytes, rest) :- Take(b, width);
    FromLeRoundTrip(bytes);
    Read(FromLe(bytes), rest)
  }

  function TakePlace(b: seq<u8>): (r: Parsed<Place>)
    ensures r.Read? ==> b == PlaceBytes(r.value) + r.rest
  {
    var (x, b1) :- TakeByte(b);
    var (y, b2) :- TakeByte(b1);
    Read(Place(x, y), b2)
  }

  function TakeSteps(b: seq<u8>, n: nat): (r: Parsed<seq<Place>>)
    ensures r.Read? ==> |r.value| == n && b == StepsBytes(r.value) + r.rest
  {
    if n == 0 then Read([], b)
    else
      var (steps, b1) :- TakeSteps(b, n - 1);
      var (step, b2) :- TakePlace(b1);
      assert (steps + [step])[..n - 1] == steps;
      assert StepsBytes(steps) + (PlaceBytes(step) + b2) == StepsBytes(steps) + PlaceBytes(step) + b2;
      Read(steps + [step], b2)
  }

  lemma TakeBehind(a: seq<u8>, rest: seq<u8>)
    ensures Take(a + rest, |a|) == Read(a, rest)
  {
  }

  lemma TakeByteBehind(a: u8, rest: seq<u8>)
    ensures TakeByte([a] + rest) == Read(a, rest)
  {
    assert ([a] + rest)[1..] == rest;
  }

  lemma TakeLeBehind(x: nat, width: nat, rest: seq<u8>)
    requires x < Span(width)
    ensures TakeLe(Le(x, width) + rest, width) == Read(x, rest)
  {
    TakeBehind(Le(x, width), rest);
    LeRoundTrip(x, width);
  }

  lemma TakePlaceBehind(p: Place, rest: seq<u8>)
    ensures TakePlace(PlaceBytes(p) + rest) == Read(p, rest)
  {
    assert PlaceBytes(p) + rest == [p.x] + ([p.y] + rest);
    TakeByteBehind(p.x, [p.y] + rest);
    TakeByteBehind(p.y, rest);
  }

  lemma {:induction false} TakeStepsBehind(steps: seq<Place>, rest: seq<u8>)
    ensures TakeSteps(StepsBytes(steps) + rest, |steps|) == Read(steps, rest)
  {
    if steps == [] {
      assert StepsBytes(steps) + rest == rest;
    } else {
      var n := |steps| - 1;
      var tail := PlaceBytes(steps[n]) + rest;
      assert StepsBytes(steps) + rest == StepsBytes(steps[..n]) + tail;
      TakeStepsBehind(steps[..n], tail);
      TakePlaceBehind(steps[n], rest);
      assert steps[..n] + [steps[n]] == steps;
    }
  }

  // ---- Actions ----

  function TakeWeather(b: seq<u8>): (r: Parsed<Action>)
    ensures r.Read? ==> r.value.Weather? && b == ParamBytes(r.value) + r.rest
  {
    var (at, b1) :- TakePlace(b);
    var (kind, b2) :- TakeByte(b1);
    if kind == 0 then Read(Weather(at, Rain), b2)
    else if kind == 1 then Read(Weather(at, Drought), b2)
    else Failed(BadWeatherKind)
  }

  function TakeMigrate(b: seq<u8>): (r: Parsed<Action>)
    ensures r.Read? ==> r.value.Migrate? && b == ParamBytes(r.value) + r.rest
  {
    Spans();
    var (id, b1) :- TakeLe(b, 4);
    var (from, b2) :- TakePlace(b1);
    var (to, b3) :- TakePlace(b2);
    Read(Migrate(id, from, to), b3)
  }

  function TakeSource(b: seq<u8>): (r: Parsed<Source>)
    ensures r.Read? ==> b == [SourceByte(r.value)] + r.rest
  {
    var (source, rest) :- TakeByte(b);
    if source == 0 then Read(Museum, rest) else if source == 1 then Read(SporeBank, rest) else Failed(BadSource)
  }

  function TakeRevive(b: seq<u8>): (r: Parsed<Action>)
    ensures r.Read? ==> r.value.Revive? && |r.value.steps| <= 2
    ensures r.Read? ==> b == ParamBytes(r.value) + r.rest
  {
    Spans();
    var (source, b1) :- TakeSource(b);
    var (id, b2) :- TakeLe(b1, 4);
    var (n, b3) :- TakeByte(b2);
    if n > 2 then Failed(TooManySteps)
    else
      var (steps, b4) :- TakeSteps(b3, n);
      var (at, b5) :- TakePlace(b4);
      ReviveParts(source, id, steps, at, b5);
      Read(Revive(source, id, steps, at), b5)
  }

  lemma ReviveParts(source: Source, id: u32, steps: seq<Place>, at: Place, rest: seq<u8>)
    requires |steps| <= 2
    ensures ParamBytes(Revive(source, id, steps, at)) + rest
      == [SourceByte(source)] + (Le(id, 4) + ([|steps|] + (StepsBytes(steps) + (PlaceBytes(at) + rest))))
  {
    hide Le, StepsBytes, PlaceBytes, SourceByte;
    var a, b, c, d, e := [SourceByte(source)], Le(id, 4), [|steps|], StepsBytes(steps), PlaceBytes(at);
    Regroup(a + b + c + d, e, rest);
    Regroup(a + b + c, d, e + rest);
    Regroup(a + b, c, d + (e + rest));
    Regroup(a, b, c + (d + (e + rest)));
  }

  lemma Regroup(a: seq<u8>, b: seq<u8>, c: seq<u8>)
    ensures a + b + c == a + (b + c)
  {
  }

  function TakeClade(action: CladeAction, b: seq<u8>): (r: Parsed<Action>)
    ensures r.Read? ==> r.value.Clade? && r.value.action == action && GiftByte(action) + b == ParamBytes(r.value) + r.rest
  {
    Spans();
    var (id, b1) :- TakeLe(b, 4);
    var (at, b2) :- TakePlace(b1);
    CladeParts(action, id, at, b2);
    Read(Clade(action, id, at), b2)
  }

  lemma CladeParts(action: CladeAction, id: u32, at: Place, rest: seq<u8>)
    ensures ParamBytes(Clade(action, id, at)) + rest == GiftByte(action) + (Le(id, 4) + (PlaceBytes(at) + rest))
  {
    hide Le, GiftByte;
  }

  function TakeGift(b: seq<u8>): (r: Parsed<Action>)
    ensures r.Read? ==> r.value.Clade? && r.value.action.Gift? && b == ParamBytes(r.value) + r.rest
  {
    var (kind, b1) :- TakeByte(b);
    TakeClade(Gift(kind), b1)
  }

  function TakeHybrid(b: seq<u8>): (r: Parsed<Action>)
    ensures r.Read? ==> r.value.Hybrid? && b == ParamBytes(r.value) + r.rest
  {
    Spans();
    var (x, b1) :- TakeLe(b, 4);
    var (y, b2) :- TakeLe(b1, 4);
    var (at, b3) :- TakePlace(b2);
    Read(Hybrid(x, y, at), b3)
  }

  function TakeParams(code: u8, b: seq<u8>): (r: Parsed<Action>)
    ensures r.Read? ==> (r.value.Revive? ==> |r.value.steps| <= 2) && Code(r.value) == code
    ensures r.Read? ==> b == ParamBytes(r.value) + r.rest
  {
    match code
    case 0 => TakeWeather(b)
    case 1 => TakeMigrate(b)
    case 2 => TakeRevive(b)
    case 3 => TakeClade(Shelter, b)
    case 4 => TakeClade(Forage, b)
    case 5 => TakeClade(Cure, b)
    case 6 => TakeGift(b)
    case 7 => TakeHybrid(b)
    case 8 => TakeClade(Blight, b)
    case 9 => TakeClade(Expose, b)
    case 10 => TakeClade(Sickness, b)
    case _ => Failed(BadAction)
  }

  function TakeAction(b: seq<u8>): (r: Parsed<Action>)
    ensures r.Read? ==> (r.value.Revive? ==> |r.value.steps| <= 2) && b == ActionBytes(r.value) + r.rest
  {
    var (code, b1) :- TakeByte(b);
    TakeParams(code, b1)
  }

  lemma TakeParamsBehind(a: Action, rest: seq<u8>)
    requires a.Revive? ==> |a.steps| <= 2
    ensures TakeParams(Code(a), ParamBytes(a) + rest) == Read(a, rest)
  {
    hide Le, StepsBytes, TakePlace, TakeLe, TakeByte, TakeSteps, PlaceBytes;
    Spans();
    match a {
      case Weather(at, kind) =>
        assert ParamBytes(a) + rest == PlaceBytes(at) + ([KindByte(kind)] + rest);
        TakePlaceBehind(at, [KindByte(kind)] + rest);
        TakeByteBehind(KindByte(kind), rest);
      case Migrate(id, from, to) =>
        assert ParamBytes(a) + rest == Le(id, 4) + (PlaceBytes(from) + (PlaceBytes(to) + rest));
        TakeLeBehind(id, 4, PlaceBytes(from) + (PlaceBytes(to) + rest));
        TakePlaceBehind(from, PlaceBytes(to) + rest);
        TakePlaceBehind(to, rest);
      case Revive(source, id, steps, at) =>
        TakeReviveBehind(source, id, steps, at, rest);
      case Clade(action, id, at) =>
        var tail := Le(id, 4) + (PlaceBytes(at) + rest);
        CladeParts(action, id, at, rest);
        TakeLeBehind(id, 4, PlaceBytes(at) + rest);
        TakePlaceBehind(at, rest);
        if action.Gift? {
          TakeByteBehind(action.kind, tail);
        } else {
          assert [] + tail == tail;
        }
      case Hybrid(x, y, at) =>
        assert ParamBytes(a) + rest == Le(x, 4) + (Le(y, 4) + (PlaceBytes(at) + rest));
        TakeLeBehind(x, 4, Le(y, 4) + (PlaceBytes(at) + rest));
        TakeLeBehind(y, 4, PlaceBytes(at) + rest);
        TakePlaceBehind(at, rest);
    }
  }

  lemma TakeReviveBehind(source: Source, id: u32, steps: seq<Place>, at: Place, rest: seq<u8>)
    requires |steps| <= 2
    ensures TakeRevive(ParamBytes(Revive(source, id, steps, at)) + rest) == Read(Revive(source, id, steps, at), rest)
  {
    hide Le, StepsBytes, TakePlace, TakeLe, TakeByte, TakeSteps, PlaceBytes;
    Spans();
    var b4 := PlaceBytes(at) + rest;
    var b3 := StepsBytes(steps) + b4;
    var b2 := [|steps|] + b3;
    ReviveParts(source, id, steps, at, rest);
    TakeByteBehind(SourceByte(source), Le(id, 4) + b2);
    TakeLeBehind(id, 4, b2);
    TakeByteBehind(|steps|, b3);
    TakeStepsBehind(steps, b4);
    TakePlaceBehind(at, rest);
  }

  // ---- Hypotheses and names ----

  function TakeHypothesis(b: seq<u8>): (r: Parsed<Option<Hypothesis>>)
    ensures r.Read? ==> (r.value.Some? ==> |r.value.value.params| <= MAX_HYPOTHESIS_PARAMS)
    ensures r.Read? ==> b == HypothesisBytes(r.value) + r.rest
  {
    Spans();
    var (present, b1) :- TakeByte(b);
    if present == 0 then Read(None, b1)
    else if present == 1 then
      var (template, b2) :- TakeLe(b1, 2);
      var (n, b3) :- TakeByte(b2);
      if n > MAX_HYPOTHESIS_PARAMS then Failed(HypothesisTooLong)
      else
        var (params, b4) :- Take(b3, n);
        Read(Some(Hypothesis(template, params)), b4)
    else Failed(BadHypothesis)
  }

  lemma NameParts(n: Name, rest: seq<u8>)
    ensures NameBytes(Some(n)) + rest == [1] + (Le(n.genus, 2) + (Le(n.epithet, 2) + rest))
  {
    hide Le;
  }

  function TakeName(b: seq<u8>): (r: Parsed<Option<Name>>)
    ensures r.Read? ==> b == NameBytes(r.value) + r.rest
  {
    Spans();
    var (present, b1) :- TakeByte(b);
    if present == 0 then Read(None, b1)
    else if present == 1 then
      var (genus, b2) :- TakeLe(b1, 2);
      var (epithet, b3) :- TakeLe(b2, 2);
      NameParts(Name(genus, epithet), b3);
      Read(Some(Name(genus, epithet)), b3)
    else Failed(BadName)
  }

  lemma TakeHypothesisBehind(h: Option<Hypothesis>, rest: seq<u8>)
    requires h.Some? ==> |h.value.params| <= MAX_HYPOTHESIS_PARAMS
    ensures TakeHypothesis(HypothesisBytes(h) + rest) == Read(h, rest)
  {
    hide Le, TakeLe, TakeByte, Take;
    Spans();
    match h {
      case None => TakeByteBehind(0, rest);
      case Some(h) =>
        var b3 := h.params + rest;
        var b2 := [|h.params|] + b3;
        assert HypothesisBytes(Some(h)) + rest == [1] + (Le(h.template, 2) + b2);
        TakeByteBehind(1, Le(h.template, 2) + b2);
        TakeLeBehind(h.template, 2, b2);
        TakeByteBehind(|h.params|, b3);
        TakeBehind(h.params, rest);
    }
  }

  lemma TakeNameBehind(name: Option<Name>, rest: seq<u8>)
    ensures TakeName(NameBytes(name) + rest) == Read(name, rest)
  {
    hide Le, TakeLe, TakeByte;
    Spans();
    match name {
      case None => TakeByteBehind(0, rest);
      case Some(n) =>
        assert NameBytes(name) + rest == [1] + (Le(n.genus, 2) + (Le(n.epithet, 2) + rest));
        TakeByteBehind(1, Le(n.genus, 2) + (Le(n.epithet, 2) + rest));
        TakeLeBehind(n.genus, 2, Le(n.epithet, 2) + rest);
        TakeLeBehind(n.epithet, 2, rest);
    }
  }

  // ---- Whole wishes ----

  /** What comes before the action, and what comes after it. */
  function HeadBytes(w: Wish): seq<u8> {
    [VERSION] + w.worldId + w.rulesetId
  }

  function TakeHead(b: seq<u8>): (r: Parsed<(Id16, Id32)>)
    ensures r.Read? ==> b == [VERSION] + r.value.0 + r.value.1 + r.rest
  {
    var (version, b1) :- TakeByte(b);
    if version != VERSION then Failed(BadVersion)
    else
      var (world, b2) :- Take(b1, 16);
      var (ruleset, b3) :- Take(b2, 32);
      Read((world, ruleset), b3)
  }

  datatype Terms = Terms(author: Id32, createdEpoch: u64, expiresEpoch: u64)

  function TermsBytes(t: Terms): seq<u8> {
    t.author + Le(t.createdEpoch, 8) + Le(t.expiresEpoch, 8)
  }

  function TakeTerms(b: seq<u8>): (r: Parsed<Terms>)
    ensures r.Read? ==> b == TermsBytes(r.value) + r.rest
  {
    Spans();
    var (author, b1) :- Take(b, 32);
    var (created, b2) :- TakeLe(b1, 8);
    var (expires, b3) :- TakeLe(b2, 8);
    Read(Terms(author, created, expires), b3)
  }

  /** A wish with nothing left over. */
  function TakeWish(b: seq<u8>): (r: Parsed<Wish>)
    ensures r.Read? ==> (r.value.action.Revive? ==> |r.value.action.steps| <= 2)
    ensures r.Read? ==> (r.value.hypothesis.Some? ==> |r.value.hypothesis.value.params| <= MAX_HYPOTHESIS_PARAMS)
    ensures r.Read? ==> r.rest == [] && b == Layout(r.value)
  {
    var (head, b1) :- TakeHead(b);
    var (action, b2) :- TakeAction(b1);
    var (terms, b3) :- TakeTerms(b2);
    var (hypothesis, b4) :- TakeHypothesis(b3);
    var (name, b5) :- TakeName(b4);
    if b5 != [] then Failed(TrailingBytes)
    else
      var w := Wish(head.0, head.1, action, terms.author, terms.createdEpoch, terms.expiresEpoch, hypothesis, name);
      LayoutParts(w);
      Read(w, b5)
  }

  /** The layout of a wish, whether or not it passes its check. */
  function Layout(w: Wish): seq<u8>
    requires w.action.Revive? ==> |w.action.steps| <= 2
    requires w.hypothesis.Some? ==> |w.hypothesis.value.params| <= MAX_HYPOTHESIS_PARAMS
  {
    HeadBytes(w) + (ActionBytes(w.action) + (TermsBytes(TermsOf(w)) + (HypothesisBytes(w.hypothesis) + NameBytes(w.name))))
  }

  function TermsOf(w: Wish): Terms {
    Terms(w.author, w.createdEpoch, w.expiresEpoch)
  }

  lemma LayoutParts(w: Wish)
    requires w.action.Revive? ==> |w.action.steps| <= 2
    requires w.hypothesis.Some? ==> |w.hypothesis.value.params| <= MAX_HYPOTHESIS_PARAMS
    ensures Layout(w) == HeadBytes(w) + (ActionBytes(w.action) + (TermsBytes(TermsOf(w))
      + (HypothesisBytes(w.hypothesis) + (NameBytes(w.name) + []))))
    ensures Check(w) == None ==> Layout(w) == Encoding(w)
  {
    hide ActionBytes, HypothesisBytes, NameBytes, Le;
    assert NameBytes(w.name) + [] == NameBytes(w.name);
  }

  datatype Result = Ok(wish: Wish) | Err(flaw: Flaw)

  /** Strict decoding: the layout, nothing after it, and the rules besides. */
  function Decode(b: seq<u8>): Result {
    match TakeWish(b)
    case Failed(flaw) => Err(flaw)
    case Read(w, _) =>
      match Check(w)
      case Some(flaw) => Err(flaw)
      case None => Ok(w)
  }

  lemma TakeHeadBehind(w: Wish, rest: seq<u8>)
    ensures TakeHead(HeadBytes(w) + rest) == Read((w.worldId, w.rulesetId), rest)
  {
    hide TakeByte, Take;
    assert HeadBytes(w) + rest == [VERSION] + (w.worldId + (w.rulesetId + rest));
    TakeByteBehind(VERSION, w.worldId + (w.rulesetId + rest));
    TakeBehind(w.worldId, w.rulesetId + rest);
    TakeBehind(w.rulesetId, rest);
  }

  lemma TakeTermsBehind(t: Terms, rest: seq<u8>)
    ensures TakeTerms(TermsBytes(t) + rest) == Read(t, rest)
  {
    hide Le, TakeLe, Take;
    Spans();
    assert TermsBytes(t) + rest == t.author + (Le(t.createdEpoch, 8) + (Le(t.expiresEpoch, 8) + rest));
    TakeBehind(t.author, Le(t.createdEpoch, 8) + (Le(t.expiresEpoch, 8) + rest));
    TakeLeBehind(t.createdEpoch, 8, Le(t.expiresEpoch, 8) + rest);
    TakeLeBehind(t.expiresEpoch, 8, rest);
  }

  lemma TakeActionBehind(a: Action, rest: seq<u8>)
    requires a.Revive? ==> |a.steps| <= 2
    ensures TakeAction(ActionBytes(a) + rest) == Read(a, rest)
  {
    hide ParamBytes, TakeParams, TakeByte, Code;
    assert ActionBytes(a) + rest == [Code(a)] + (ParamBytes(a) + rest);
    TakeByteBehind(Code(a), ParamBytes(a) + rest);
    TakeParamsBehind(a, rest);
  }

  /** Decoding undoes encoding, for every wish that passes its check. */
  lemma DecodesWhatItEncodes(w: Wish)
    requires Check(w) == None
    ensures Decode(Encoding(w)) == Ok(w)
  {
    hide HeadBytes, ActionBytes, TermsBytes, HypothesisBytes, NameBytes, TakeHead, TakeAction, TakeTerms, TakeHypothesis,
      TakeName, Encoding;
    LayoutParts(w);
    var b4 := NameBytes(w.name) + [];
    var b3 := HypothesisBytes(w.hypothesis) + b4;
    var b2 := TermsBytes(TermsOf(w)) + b3;
    TakeHeadBehind(w, ActionBytes(w.action) + b2);
    TakeActionBehind(w.action, b2);
    TakeTermsBehind(TermsOf(w), b3);
    TakeHypothesisBehind(w.hypothesis, b4);
    TakeNameBehind(w.name, []);
  }

  /** Every accepted string is the encoding of the wish it decodes to. */
  lemma AcceptedIsCanonical(b: seq<u8>)
    requires Decode(b).Ok?
    ensures Check(Decode(b).wish) == None && Encoding(Decode(b).wish) == b
  {
    hide TakeWish, Encoding, Layout;
    LayoutParts(TakeWish(b).value);
  }

  /** Encoding is a bijection between the wishes that pass their check and the strings that are accepted. */
  lemma EncodingIsABijection(b: seq<u8>)
    ensures Decode(b).Ok? <==> exists w: Wish :: Check(w) == None && Encoding(w) == b
    ensures forall v: Wish, w: Wish :: Check(v) == None && Check(w) == None && Encoding(v) == Encoding(w) ==> v == w
  {
    hide Encoding, Decode, Check;
    if Decode(b).Ok? {
      AcceptedIsCanonical(b);
    }
    forall w: Wish | Check(w) == None
      ensures Decode(Encoding(w)) == Ok(w)
    {
      DecodesWhatItEncodes(w);
    }
  }
}
