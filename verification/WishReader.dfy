/** Reading a wish with a cursor, protocol/src/wish.rs:264-451. */
module WishReader {
  import opened Bytes
  import opened Hashing
  import opened Options
  import opened Wishes

  datatype Step<+T> = Got(value: T) | Bad(flaw: Flaw) {
    predicate IsFailure() {
      Bad?
    }

    function PropagateFailure<U>(): Step<U>
      requires Bad?
    {
      Bad(flaw)
    }

    function Extract(): T
      requires Got?
    {
      value
    }
  }

  /** A step of the reader agrees with reading from the front of what is left. */
  predicate Agrees<T(==)>(step: Step<T>, left: seq<u8>, parsed: Parsed<T>) {
    match parsed
    case Failed(flaw) => step == Bad(flaw)
    case Read(value, rest) => step == Got(value) && left == rest
  }

  class Reader {
    const bytes: seq<u8>
    var at: nat

    constructor (bytes: seq<u8>)
      ensures Valid() && this.bytes == bytes && Left() == bytes && fresh(this)
    {
      this.bytes := bytes;
      at := 0;
    }

    predicate Valid()
      reads this
    {
      at <= |bytes|
    }

    function Left(): seq<u8>
      requires Valid()
      reads this
    {
      bytes[at..]
    }

    method Bytes(n: nat) returns (r: Step<seq<u8>>)
      requires Valid()
      modifies this
      ensures Valid() && Agrees(r, Left(), Take(old(Left()), n))
      ensures r.Got? ==> |r.value| == n
    {
      if |bytes| - at < n {
        return Bad(TooShort);
      }
      r := Got(bytes[at..at + n]);
      assert bytes[at..][..n] == bytes[at..at + n] && bytes[at..][n..] == bytes[at + n..];
      at := at + n;
    }

    method Byte() returns (r: Step<u8>)
      requires Valid()
      modifies this
      ensures Valid() && Agrees(r, Left(), TakeByte(old(Left())))
    {
      var one :- Bytes(1);
      r := Got(one[0]);
    }

    method Integer(width: nat) returns (r: Step<nat>)
      requires Valid()
      modifies this
      ensures Valid() && Agrees(r, Left(), TakeLe(old(Left()), width))
    {
      var part :- Bytes(width);
      r := Got(FromLe(part));
    }

    method Spot() returns (r: Step<Place>)
      requires Valid()
      modifies this
      ensures Valid() && Agrees(r, Left(), TakePlace(old(Left())))
    {
      var x :- Byte();
      var y :- Byte();
      r := Got(Place(x, y));
    }

    method Steps(n: nat) returns (r: Step<seq<Place>>)
      requires Valid()
      modifies this
      ensures Valid() && Agrees(r, Left(), TakeSteps(old(Left()), n))
    {
      var steps := [];
      for k := 0 to n
        invariant Valid() && TakeSteps(old(Left()), k) == Read(steps, Left())
      {
        ghost var before := Left();
        var step := Spot();
        if step.Bad? {
          StepsFail(old(Left()), k + 1, n, step.flaw);
          return Bad(step.flaw);
        }
        steps := steps + [step.value];
      }
      r := Got(steps);
    }

    method ReadRevive() returns (r: Step<Action>)
      requires Valid()
      modifies this
      ensures Valid() && Agrees(r, Left(), TakeRevive(old(Left())))
    {
      hide TakeByte, TakeLe, TakePlace, TakeSteps;
      Spans();
      var source :- Byte();
      if source > 1 {
        return Bad(BadSource);
      }
      var id :- Integer(4);
      var n :- Byte();
      if n > 2 {
        return Bad(TooManySteps);
      }
      var steps :- Steps(n);
      var at :- Spot();
      r := Got(Revive(if source == 0 then Museum else SporeBank, id, steps, at));
    }

    method ReadClade(action: CladeAction) returns (r: Step<Action>)
      requires Valid()
      modifies this
      ensures Valid() && Agrees(r, Left(), TakeClade(action, old(Left())))
    {
      hide TakeLe, TakePlace;
      Spans();
      var id :- Integer(4);
      var at :- Spot();
      r := Got(Clade(action, id, at));
    }

    method ReadAction() returns (r: Step<Action>)
      requires Valid()
      modifies this
      ensures Valid() && Agrees(r, Left(), TakeAction(old(Left())))
    {
      hide TakeByte, TakeLe, TakePlace, TakeRevive, TakeClade;
      Spans();
      var code :- Byte();
      if code == 0 {
        var at :- Spot();
        var kind :- Byte();
        if kind > 1 {
          return Bad(BadWeatherKind);
        }
        r := Got(Weather(at, if kind == 0 then Rain else Drought));
      } else if code == 1 {
        var id :- Integer(4);
        var from :- Spot();
        var to :- Spot();
        r := Got(Migrate(id, from, to));
      } else if code == 2 {
        r := ReadRevive();
      } else if code == 7 {
        var a :- Integer(4);
        var b :- Integer(4);
        var at :- Spot();
        r := Got(Hybrid(a, b, at));
      } else if code == 6 {
        var kind :- Byte();
        r := ReadClade(Gift(kind));
      } else if code <= 10 {
        var action := match code case 3 => Shelter case 4 => Forage case 5 => Cure case 8 => Blight case 9 => Expose case _ => Sickness;
        r := ReadClade(action);
      } else {
        r := Bad(BadAction);
      }
    }

    method ReadHypothesis() returns (r: Step<Option<Hypothesis>>)
      requires Valid()
      modifies this
      ensures Valid() && Agrees(r, Left(), TakeHypothesis(old(Left())))
    {
      hide TakeByte, TakeLe, Take;
      Spans();
      var present :- Byte();
      if present == 0 {
        r := Got(None);
      } else if present == 1 {
        var template :- Integer(2);
        var n :- Byte();
        if n > MAX_HYPOTHESIS_PARAMS {
          return Bad(HypothesisTooLong);
        }
        var params :- Bytes(n);
        r := Got(Some(Hypothesis(template, params)));
      } else {
        r := Bad(BadHypothesis);
      }
    }

    method ReadName() returns (r: Step<Option<Name>>)
      requires Valid()
      modifies this
      ensures Valid() && Agrees(r, Left(), TakeName(old(Left())))
    {
      hide TakeByte, TakeLe;
      Spans();
      var present :- Byte();
      if present == 0 {
        r := Got(None);
      } else if present == 1 {
        var genus :- Integer(2);
        var epithet :- Integer(2);
        r := Got(Some(Name(genus, epithet)));
      } else {
        r := Bad(BadName);
      }
    }

    method ReadHead() returns (r: Step<(Id16, Id32)>)
      requires Valid()
      modifies this
      ensures Valid() && Agrees(r, Left(), TakeHead(old(Left())))
    {
      hide TakeByte, Take;
      var version :- Byte();
      if version != VERSION {
        return Bad(BadVersion);
      }
      var world :- Bytes(16);
      var ruleset :- Bytes(32);
      r := Got((world, ruleset));
    }

    method ReadTerms() returns (r: Step<Terms>)
      requires Valid()
      modifies this
      ensures Valid() && Agrees(r, Left(), TakeTerms(old(Left())))
    {
      hide TakeLe, Take;
      Spans();
      var author :- Bytes(32);
      var created :- Integer(8);
      var expires :- Integer(8);
      r := Got(Terms(author, created, expires));
    }

    method ReadWish() returns (r: Step<Wish>)
      requires Valid()
      modifies this
      ensures Valid() && Agrees(r, Left(), TakeWish(old(Left())))
    {
      hide TakeHead, TakeAction, TakeTerms, TakeHypothesis, TakeName, Layout;
      var head :- ReadHead();
      var action :- ReadAction();
      var terms :- ReadTerms();
      var hypothesis :- ReadHypothesis();
      var name :- ReadName();
      if at != |bytes| {
        return Bad(TrailingBytes);
      }
      r := Got(Wish(head.0, head.1, action, terms.author, terms.createdEpoch, terms.expiresEpoch, hypothesis, name));
    }
  }

  lemma {:induction false} StepsFail(b: seq<u8>, k: nat, n: nat, flaw: Flaw)
    requires k <= n && TakeSteps(b, k) == Failed(flaw)
    ensures TakeSteps(b, n) == Failed(flaw)
    decreases n - k
  {
    if k < n {
      StepsFail(b, k + 1, n, flaw);
    }
  }

  /** Decodes a wish; accepted strings are exactly the encodings of wishes that pass their check. */
  method FromBytes(b: seq<u8>) returns (r: Result)
    ensures r == Decode(b)
    ensures r.Ok? ==> Check(r.wish) == None && Encoding(r.wish) == b
    ensures r.Err? ==> forall w: Wish :: Check(w) == None ==> Encoding(w) != b
  {
    hide TakeWish, Encoding, Check;
    var reader := new Reader(b);
    var step := reader.ReadWish();
    if step.Bad? {
      r := Err(step.flaw);
    } else {
      var flaw := Check(step.value);
      r := if flaw.Some? then Err(flaw.value) else Ok(step.value);
    }
    EncodingIsABijection(b);
    if r.Ok? {
      AcceptedIsCanonical(b);
    }
  }
}
