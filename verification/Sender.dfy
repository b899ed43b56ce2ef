/** The client's replication sender: it posts the values of the keys that were changed locally, one post at a time,
    gathers what changes meanwhile into the next post, and tries again when a post fails. */
module Sender {
  import opened Wrappers

  datatype Outcome = Done | NoSuchElement | NoText | BadSchema | BadLayout

  /** What the type of an element says about its place in an update. */
  datatype Kind = Scalar | List | Composite

  /** An element of a server update: its key, and its text, if it has any. */
  type Update<+V> = (string, Option<V>)

  /** A server update: its elements, and whether the schema before them and the layout after them can be parsed. */
  datatype Document<+V> = Document(schema: bool, elements: seq<Update<V>>, layout: bool)

  /** What a local change hands over: the very thing that `getElementValue` returns, or something else. */
  datatype Given<+V> = Own | Fresh(value: V)

  /** What was true when the sender announced that everything was sent. */
  datatype Completion<V> = Completion(keys: set<string>, post: map<string, V>, values: map<string, V>)

  /** What a server update did to the values, and which local changes were not settled then. */
  datatype Overwrite<V> =
    Overwrite(changed: set<string>, missed: set<string>, before: map<string, V>, after: map<string, V>)

  datatype Event<V> =
    | LocalChange(key: string, given: Given<V>)
    | ChangeInPlace(key: string, value: V)
    | ServerUpdate(document: Document<V>)
    | Acknowledged
    | Refused
    | TimerFires

  /** The post held the current value of every key that was to be sent. */
  ghost predicate Current<V>(c: Completion<V>) {
    forall k :: k in c.keys ==> k in c.post && k in c.values && c.post[k] == c.values[k]
  }

  /** A local change wins over a server update, unless the sender did not take it down. */
  ghost predicate LocalWins<V>(u: Overwrite<V>) {
    forall k :: k in u.changed && k in u.before && k in u.after && u.before[k] != u.after[k] ==> k in u.missed
  }

  /** Which changes the listeners hear of: of the very thing that is in the model already only if it is a composite,
      and of a value that is equal to the old one only if it is not compared by value. */
  predicate Counts<V(==)>(kind: Kind, given: Given<V>, oldValue: V) {
    (given == Own ==> kind == Composite) && (given == Fresh(oldValue) ==> kind != Scalar)
  }

  /** The exposed model, its sender, and what is on its way between them and the server. */
  class Replica<V(==)> {
    // The model.
    var values: map<string, V>
    const kind: string -> Kind

    // The sender.
    var keys: set<string>
    var updateInProgress: bool
    var pendingXML: bool
    var parsingUpdate: bool

    // The post that has no answer yet, and the retries that are scheduled.
    var inFlight: Option<map<string, V>>
    var timers: nat

    /** The keys that really were changed locally since the last completion, and among them those whose last
        change the sender did not take down. */
    ghost var changed: set<string>
    ghost var missed: set<string>

    /** The keys whose list or composite value was changed in place, with no change taken down since. */
    ghost var aliased: set<string>

    /** A retry came while the sender was not listening. */
    ghost var retryDropped: bool

    /** The parsing of some server update ended before its time. */
    ghost var deafened: bool

    /** The posts that were started, and the completions announced, in order. */
    ghost var posts: seq<map<string, V>>
    ghost var completions: seq<Completion<V>>

    /** The server updates, in order. */
    ghost var overwrites: seq<Overwrite<V>>

    ghost predicate Valid()
      reads this
    {
      ValidBut({})
    }

    /** Valid, but the values of the keys in `stale` may be newer than the post on its way. */
    ghost predicate ValidBut(stale: set<string>)
      reads this
    {
      keys <= values.Keys && Sending() && UpToDate(stale) && Recorded() && Honest()
    }

    /** There is a post on its way or a retry to come as long as there is something to send. */
    ghost predicate Sending()
      reads `keys, `updateInProgress, `inFlight, `posts, `timers, `retryDropped
    {
      && (updateInProgress <==> inFlight.Some?)
      && (inFlight.Some? ==> posts != [] && inFlight.value == posts[|posts| - 1])
      && (keys != {} && !updateInProgress ==> timers > 0 || retryDropped)
    }

    /** The post on its way, unless another is to follow, has the values of the keys to be sent. */
    ghost predicate UpToDate(stale: set<string>)
      reads `keys, `missed, `updateInProgress, `pendingXML, `inFlight, `values
    {
      updateInProgress && inFlight.Some? && !pendingXML ==>
        Current(Completion(keys - missed - stale, inFlight.value, values))
    }

    /** Local changes are taken down, or missed for a reason. */
    ghost predicate Recorded()
      reads `keys, `changed, `missed, `aliased, `parsingUpdate, `retryDropped, `deafened
    {
      && changed == keys + missed && aliased <= missed
      && (parsingUpdate || retryDropped || !(missed <= aliased + {""}) ==> deafened)
    }

    /** Every completion announced was right, and every server update let the local changes be. */
    ghost predicate Honest()
      reads `completions, `overwrites
    {
      AllCurrent(completions) && AllWin(overwrites)
    }

    static ghost predicate AllCurrent(cs: seq<Completion<V>>) {
      forall c :: c in cs ==> Current(c)
    }

    static ghost predicate AllWin(us: seq<Overwrite<V>>) {
      forall u :: u in us ==> LocalWins(u)
    }

    static lemma OneMoreIsCurrent(cs: seq<Completion<V>>, c: Completion<V>)
      requires AllCurrent(cs) && Current(c)
      ensures AllCurrent(cs + [c])
    {
    }

    constructor (values: map<string, V>, kind: string -> Kind)
      ensures Valid() && this.values == values && this.kind == kind
      ensures !updateInProgress && !parsingUpdate && changed == {} && missed == {} && posts == [] && completions == []
      ensures keys == {} && !pendingXML && inFlight.None?
      ensures timers == 0 && !deafened && aliased == {} && overwrites == []
    {
      this.values, this.kind := values, kind;
      keys, updateInProgress, pendingXML, parsingUpdate := {}, false, false, false;
      inFlight, timers := None, 0;
      changed, missed, aliased, retryDropped, deafened, posts, completions := {}, {}, {}, false, false, [], [];
      overwrites := [];
    }

    /** The values of the keys to be sent. */
    function Build(): map<string, V>
      reads this
      requires keys <= values.Keys
    {
      map k | k in keys :: values[k]
    }

    /** `_send` */
    method Send(post: map<string, V>)
      modifies `updateInProgress, `inFlight, `posts, `retryDropped
      ensures updateInProgress && inFlight == Some(post) && posts == old(posts) + [post] && !retryDropped
    {
      updateInProgress := true;
      inFlight := Some(post);
      posts := posts + [post];
      retryDropped := false;
    }

    /** The sender stands where it stood. */
    twostate predicate SendsNothing()
      reads this
    {
      && keys == old(keys) && updateInProgress == old(updateInProgress) && pendingXML == old(pendingXML)
      && inFlight == old(inFlight) && posts == old(posts) && retryDropped == old(retryDropped)
    }

    /** `_update`: the key is empty when a retry calls. */
    method Update(key: string)
      requires keys <= values.Keys && (key != "" ==> key in values)
      requires updateInProgress <==> inFlight.Some?
      modifies `keys, `updateInProgress, `pendingXML, `inFlight, `posts, `retryDropped
      ensures parsingUpdate ==> SendsNothing()
      ensures !parsingUpdate ==>
        && keys == old(keys) + (if key != "" then {key} else {}) <= values.Keys
        && updateInProgress
        && if old(updateInProgress) then
             pendingXML && inFlight == old(inFlight) && posts == old(posts) && retryDropped == old(retryDropped)
           else
             && pendingXML == old(pendingXML) && inFlight == Some(Build()) && posts == old(posts) + [Build()]
             && !retryDropped
    {
      if parsingUpdate {
        return;
      }
      if key != "" {
        keys := keys + {key};
      }
      if updateInProgress {
        pendingXML := true;
        return;
      }
      Send(Build());
    }

    /** Whether `updateElement` tells its listeners.  A list is compared as an array, by identity, so only another
        array counts as a change, and any other array does. */
    predicate Heard(key: string, oldValue: V, given: Given<V>) {
      match kind(key)
      case Composite => true
      case List => given.Fresh?
      case Scalar => given.Fresh? && given.value != oldValue
    }

    /** `_notifyListeners`, after a change: the record of what really was changed, and the sender. */
    method Notify(key: string)
      requires ValidBut({key}) && key in values
      modifies `changed, `missed, `aliased, `keys, `updateInProgress, `pendingXML, `inFlight, `posts, `retryDropped
      ensures Valid()
      ensures changed == old(changed) + {key}
      ensures missed == if parsingUpdate || key == "" then old(missed) + {key} else old(missed) - {key}
      ensures aliased == if parsingUpdate || key == "" then old(aliased) else old(aliased) - {key}
      ensures keys == old(keys) + (if !parsingUpdate && key != "" then {key} else {})
      ensures if parsingUpdate then posts == old(posts) && updateInProgress == old(updateInProgress)
              else updateInProgress && if old(updateInProgress) then pendingXML && posts == old(posts)
                                       else posts == old(posts) + [Build()]
    {
      if parsingUpdate || key == "" {
        Miss(key);
      } else {
        changed, missed, aliased := changed + {key}, missed - {key}, aliased - {key};
        Update(key);
      }
    }

    /** A change that is not taken down; one of the key without a name is posted, without the key. */
    method Miss(key: string)
      requires ValidBut({key}) && key in values && (parsingUpdate || key == "")
      modifies `changed, `missed, `updateInProgress, `pendingXML, `inFlight, `posts, `retryDropped, `keys
      ensures Valid() && changed == old(changed) + {key} && missed == old(missed) + {key} && keys == old(keys)
      ensures if parsingUpdate then posts == old(posts) && updateInProgress == old(updateInProgress)
              else updateInProgress && if old(updateInProgress) then pendingXML && posts == old(posts)
                                       else posts == old(posts) + [Build()]
    {
      changed, missed := changed + {key}, missed + {key};
      Update(key);
    }

    /** `updateElement`, called by the user's side.  The change is taken down exactly if the listeners are told, the
        sender is listening and the key has a name. */
    method ChangeLocally(key: string, given: Given<V>) returns (outcome: Outcome)
      requires Valid()
      modifies this
      ensures Valid()
      ensures outcome == if key in old(values) then Done else NoSuchElement
      ensures outcome == NoSuchElement ==>
        values == old(values) && changed == old(changed) && missed == old(missed) && aliased == old(aliased)
      ensures var told := outcome == Done && Counts(kind(key), given, old(values)[key]) && !parsingUpdate;
              if !told then posts == old(posts) && updateInProgress == old(updateInProgress)
              else updateInProgress && if old(updateInProgress) then pendingXML && posts == old(posts)
                                       else posts == old(posts) + [Build()]
      ensures outcome == Done ==>
        && values == (if given.Fresh? then old(values)[key := given.value] else old(values))
        && var heard, deaf := Counts(kind(key), given, old(values)[key]), parsingUpdate || key == "";
           && changed == old(changed) + (if heard then {key} else {})
           && missed == (if !heard then old(missed) else if deaf then old(missed) + {key} else old(missed) - {key})
           && aliased == (if heard && !deaf then old(aliased) - {key} else old(aliased))
           && keys == old(keys) + (if heard && !deaf then {key} else {})
      ensures completions == old(completions) && parsingUpdate == old(parsingUpdate) && timers == old(timers)
      ensures deafened == old(deafened) && overwrites == old(overwrites)
    {
      if key !in values {
        return NoSuchElement;
      }
      var oldValue := values[key];
      if given.Fresh? {
        values := values[key := given.value];
      }
      if Heard(key, oldValue, given) {
        Notify(key);
      }
      return Done;
    }

    /** The user's side changes the array or the composite that `getElementValue` returned.  It is the model's own,
        so the model changes, and nobody is told. */
    method ChangeInPlace(key: string, value: V)
      requires Valid() && key in values && !kind(key).Scalar?
      modifies `values, `changed, `missed, `aliased
      ensures Valid() && values == old(values)[key := value]
      ensures var touched := if value != old(values)[key] then {key} else {};
              changed == old(changed) + touched && missed == old(missed) + touched && aliased == old(aliased) + touched
    {
      if value != values[key] {
        changed, missed, aliased := changed + {key}, missed + {key}, aliased + {key};
      }
      values := values[key := value];
    }

    /** `accept` */
    predicate Accepts(key: string)
      reads this
    {
      key !in keys
    }

    /** `passiveUpdateElement`, while an update is parsed.  The sender hears of the change like of any other, and
        leaves everything as it is. */
    method PassiveUpdate(key: string, value: V)
      requires parsingUpdate && key in values && keys <= values.Keys && (updateInProgress <==> inFlight.Some?)
      modifies `values, `keys, `updateInProgress, `pendingXML, `inFlight, `posts, `retryDropped
      ensures values == if key in keys then old(values) else old(values)[key := value]
      ensures SendsNothing()
    {
      if Accepts(key) {
        var oldValue := values[key];
        values := values[key := value];
        if Heard(key, oldValue, Fresh(value)) {
          Update(key);
        }
      }
    }

    /** The values are those from before with these elements taken over. */
    ghost predicate Holds(taken: seq<Update<V>>, before: map<string, V>)
      reads `values, `keys
    {
      values.Keys == before.Keys && forall k :: k in values ==> values[k] == ValueAfter(taken, k, keys, kind, before[k])
    }

    /** The state part of the parser: takes the values over one by one, except those of composite elements and of
        keys that wait for an answer, up to the first element that throws: one whose key is not in the model, or
        a list without text.  Any other element without text changes nothing. */
    method ParseState(updates: seq<Update<V>>) returns (outcome: Outcome)
      requires parsingUpdate && keys <= values.Keys && (updateInProgress <==> inFlight.Some?)
      modifies `values, `keys, `updateInProgress, `pendingXML, `inFlight, `posts, `retryDropped
      ensures SendsNothing()
      ensures values.Keys == old(values).Keys && forall k :: k in keys ==> values[k] == old(values)[k]
      ensures var n := ParsedPrefix(updates, values.Keys, kind);
              outcome == ErrorOf(updates[n..], values.Keys) && Holds(updates[..n], old(values))
    {
      for i := 0 to |updates|
        invariant SendsNothing()
        invariant values.Keys == old(values).Keys && forall k :: k in keys ==> values[k] == old(values)[k]
        invariant ParsedPrefix(updates, values.Keys, kind) == i + ParsedPrefix(updates[i..], values.Keys, kind)
        invariant Holds(updates[..i], old(values))
      {
        var (key, text) := updates[i];
        if key !in values {
          return NoSuchElement;
        }
        if !kind(key).Composite? {
          if text.Some? {
            PassiveUpdate(key, text.value);
          } else if kind(key).List? {
            return NoText;
          }
        }
        assert updates[..i + 1][..i] == updates[..i];
      }
      assert updates[..|updates|] == updates;
      return Done;
    }

    /** The parser: the schema, the state, the layout, up to the first of them that throws.  The schema brings no
        new keys here. */
    method Parse(document: Document<V>) returns (outcome: Outcome)
      requires parsingUpdate && keys <= values.Keys && (updateInProgress <==> inFlight.Some?)
      modifies `values, `keys, `updateInProgress, `pendingXML, `inFlight, `posts, `retryDropped
      ensures SendsNothing()
      ensures values.Keys == old(values).Keys && forall k :: k in keys ==> values[k] == old(values)[k]
      ensures outcome == OutcomeOf(document, values.Keys, kind)
      ensures outcome == Done <==> Sound(document, values.Keys, kind)
      ensures Holds(Taken(document, values.Keys, kind), old(values))
    {
      OutcomeIsDone(document, values.Keys, kind);
      if !document.schema {
        return BadSchema;
      }
      outcome := ParseState(document.elements);
      if outcome == Done && !document.layout {
        return BadLayout;
      }
    }

    /** A poll that brought an update: it is parsed between `updateReceived` and `updateParsed`.  What throws ends
        the parsing on the spot, and `updateParsed` does not come. */
    method Receive(document: Document<V>) returns (outcome: Outcome)
      requires keys <= values.Keys && (updateInProgress <==> inFlight.Some?)
      modifies `values, `keys, `updateInProgress, `pendingXML, `inFlight, `posts, `retryDropped, `parsingUpdate
      ensures SendsNothing()
      ensures values.Keys == old(values).Keys && forall k :: k in keys ==> values[k] == old(values)[k]
      ensures parsingUpdate <==> !Sound(document, values.Keys, kind)
      ensures outcome == OutcomeOf(document, values.Keys, kind)
      ensures Holds(Taken(document, values.Keys, kind), old(values))
    {
      parsingUpdate := true;
      outcome := Parse(document);
      if outcome == Done {
        parsingUpdate := false;
      }
    }

    /** The same, with what it means for the record. */
    method TakeServerUpdate(document: Document<V>) returns (outcome: Outcome)
      requires Valid()
      modifies `values, `keys, `updateInProgress, `pendingXML, `inFlight, `posts, `retryDropped
      modifies `parsingUpdate, `deafened, `overwrites
      ensures Valid() && SendsNothing()
      ensures values.Keys == old(values).Keys
      ensures parsingUpdate <==> outcome != Done
      ensures parsingUpdate <==> !Sound(document, values.Keys, kind)
      ensures deafened == (old(deafened) || parsingUpdate)
      ensures OutcomeFits(document, outcome, values.Keys, kind)
      ensures TextsTakenOver(document, keys, kind, old(values), values)
      ensures OthersKept(document, keys, kind, old(values), values)
      ensures overwrites == old(overwrites) + [Overwrite(changed, missed, old(values), values)]
    {
      outcome := Receive(document);
      OutcomeIsDone(document, values.Keys, kind);
      OutcomeOfFits(document, values.Keys, kind);
      ValuesFit(document, keys, kind, old(values), values);
      PutOnRecord(old(values));
    }

    ghost method PutOnRecord(before: map<string, V>)
      requires keys <= before.Keys == values.Keys && forall k :: k in keys ==> values[k] == before[k]
      requires Sending() && Honest() && changed == keys + missed && aliased <= missed
      requires retryDropped || !(missed <= aliased + {""}) ==> deafened
      requires updateInProgress && inFlight.Some? && !pendingXML ==>
                 Current(Completion(keys - missed - {}, inFlight.value, before))
      modifies `deafened, `overwrites
      ensures Valid() && deafened == (old(deafened) || parsingUpdate)
      ensures overwrites == old(overwrites) + [Overwrite(changed, missed, before, values)]
    {
      StaysUpToDate(before);
      deafened := deafened || parsingUpdate;
      overwrites := overwrites + [Overwrite(changed, missed, before, values)];
    }

    /** Only the values of the keys to be sent matter to what is on its way. */
    lemma StaysUpToDate(before: map<string, V>)
      requires keys <= before.Keys == values.Keys && forall k :: k in keys ==> values[k] == before[k]
      requires updateInProgress && inFlight.Some? && !pendingXML ==>
                 Current(Completion(keys - missed - {}, inFlight.value, before))
      ensures UpToDate({})
    {
    }

    /** `_updateComplete` */
    method UpdateComplete()
      requires Valid() && inFlight.Some?
      modifies `keys, `updateInProgress, `pendingXML, `inFlight, `posts, `retryDropped
      modifies `changed, `missed, `aliased, `completions
      ensures Valid()
      ensures old(pendingXML) ==>
        && posts == old(posts) + [Build()] && keys == old(keys) && changed == old(changed) && missed == old(missed)
        && completions == old(completions) && !pendingXML && updateInProgress && aliased == old(aliased)
      ensures !old(pendingXML) ==>
        && !updateInProgress && keys == {} && changed == {} && missed == {} && aliased == {} && posts == old(posts)
        && completions == old(completions) + [Completion(old(changed) - old(missed), posts[|posts| - 1], values)]
    {
      if pendingXML {
        var xmlBuild := Build();
        pendingXML := false;
        Send(xmlBuild);
      } else {
        Complete();
      }
    }

    lemma PostIsCurrent()
      requires Valid() && inFlight.Some? && !pendingXML
      ensures Current(Completion(changed - missed, inFlight.value, values))
    {
      assert changed - missed == keys - missed - {};
    }

    method Complete()
      requires Valid() && inFlight.Some? && !pendingXML
      modifies `keys, `updateInProgress, `inFlight, `changed, `missed, `aliased, `completions
      ensures Valid() && !updateInProgress && keys == {} && changed == {} && missed == {} && aliased == {}
      ensures completions == old(completions) + [Completion(old(changed) - old(missed), posts[|posts| - 1], values)]
    {
      PostIsCurrent();
      OneMoreIsCurrent(completions, Completion(changed - missed, inFlight.value, values));
      completions := completions + [Completion(changed - missed, inFlight.value, values)];
      updateInProgress := false;
      inFlight := None;
      keys := {};
      changed, missed, aliased := {}, {}, {};
    }

    /** `_updateError` */
    method UpdateError()
      requires Valid() && inFlight.Some?
      modifies `updateInProgress, `inFlight, `timers
      ensures Valid() && !updateInProgress && timers == old(timers) + 1
    {
      updateInProgress := false;
      inFlight := None;
      timers := timers + 1;
    }

    /** The retry. */
    method TimerFires()
      requires Valid() && timers > 0
      modifies `keys, `updateInProgress, `pendingXML, `inFlight, `posts, `retryDropped, `timers
      ensures Valid() && keys == old(keys) && timers == old(timers) - 1
      ensures !parsingUpdate ==>
        updateInProgress && posts == old(posts) + (if old(updateInProgress) then [] else [Build()])
      ensures parsingUpdate ==> posts == old(posts) && updateInProgress == old(updateInProgress)
    {
      timers := timers - 1;
      if parsingUpdate {
        retryDropped := true;
      }
      Update("");
    }

    /** Once the changes stop, the retry that is due and two good answers settle everything: the last post then
        holds the current value of every key whose change was taken down. */
    method Settle()
      requires Valid() && !parsingUpdate && (updateInProgress || timers > 0)
      modifies this
      ensures Valid() && !updateInProgress && keys == {} && values == old(values)
      ensures |completions| == |old(completions)| + 1
      ensures var c := completions[|completions| - 1];
              c.keys == old(changed - missed) && c.values == values && Current(c)
    {
      if !updateInProgress {
        TimerFires();
      }
      UpdateComplete();
      if updateInProgress {
        UpdateComplete();
      }
    }

    /** The event is a server update that cannot be parsed to its end. */
    static ghost predicate Deafens(e: Event<V>, known: set<string>, kind: string -> Kind) {
      e.ServerUpdate? && !Sound(e.document, known, kind)
    }

    /** The event changes a value in place. */
    static ghost predicate Aliases(e: Event<V>, k: string) {
      e.ChangeInPlace? && e.key == k
    }

    method HandleAnswer(e: Event<V>)
      requires Valid() && (e.Acknowledged? || e.Refused? || e.TimerFires?)
      modifies `keys, `updateInProgress, `pendingXML, `inFlight, `posts, `retryDropped
      modifies `changed, `missed, `aliased, `completions, `timers
      ensures Valid() && old(completions) <= completions && aliased <= old(aliased)
      ensures e.Acknowledged? && old(inFlight).Some? ==>
        if old(pendingXML) then |posts| == |old(posts)| + 1 else |completions| == |old(completions)| + 1
      ensures e.Refused? && old(inFlight).Some? ==> !updateInProgress && timers == old(timers) + 1
      ensures e.TimerFires? && old(timers) > 0 ==> timers == old(timers) - 1
    {
      match e
      case Acknowledged =>
        if inFlight.Some? {
          UpdateComplete();
        }
      case Refused =>
        if inFlight.Some? {
          UpdateError();
        }
      case TimerFires =>
        if timers > 0 {
          TimerFires();
        }
    }

    method Handle(e: Event<V>)
      requires Valid()
      modifies this
      ensures Valid() && values.Keys == old(values).Keys
      ensures old(completions) <= completions && old(overwrites) <= overwrites
      ensures deafened <==> old(deafened) || Deafens(e, values.Keys, kind)
      ensures forall k :: k in aliased ==> k in old(aliased) || Aliases(e, k)
      ensures e.LocalChange? && e.key in old(values) && e.given.Fresh? ==> values == old(values)[e.key := e.given.value]
      ensures e.ServerUpdate? ==> |overwrites| == |old(overwrites)| + 1
    {
      match e
      case LocalChange(key, given) =>
        var _ := ChangeLocally(key, given);
      case ChangeInPlace(key, value) =>
        if key in values && !kind(key).Scalar? {
          ChangeInPlace(key, value);
        }
      case ServerUpdate(document) =>
        var _ := TakeServerUpdate(document);
      case e =>
        HandleAnswer(e);
    }

    /** Any run: every completion it announced was right, and every server update left the local changes alone that
        the sender had taken down and not settled.  Unless a server update could not be parsed, these are all
        changes of keys with a name, but those made in place and not handed over as something new; and there is a
        post on its way or a retry scheduled as long as there is something to send. */
    method Run(events: seq<Event<V>>)
      requires Valid()
      modifies this
      ensures Valid() && values.Keys == old(values).Keys
      ensures old(completions) <= completions && forall c :: c in completions ==> Current(c)
      ensures old(overwrites) <= overwrites && forall u :: u in overwrites ==> LocalWins(u)
      ensures deafened <==> old(deafened) || exists i :: 0 <= i < |events| && Deafens(events[i], values.Keys, kind)
      ensures !deafened ==> changed - {""} - aliased <= keys && (keys != {} ==> updateInProgress || timers > 0)
      ensures forall k :: k in aliased ==> k in old(aliased) || exists i :: 0 <= i < |events| && Aliases(events[i], k)
    {
      for i := 0 to |events|
        invariant Valid() && values.Keys == old(values).Keys
        invariant old(completions) <= completions && old(overwrites) <= overwrites
        invariant deafened <==> old(deafened) || exists j :: 0 <= j < i && Deafens(events[j], values.Keys, kind)
        invariant forall k :: k in aliased ==> k in old(aliased) || exists j :: 0 <= j < i && Aliases(events[j], k)
      {
        Handle(events[i]);
      }
    }
  }

  /** The element can be parsed: its key is known, and if it is a list it has text. */
  predicate Parses<V>(u: Update<V>, known: set<string>, kind: string -> Kind) {
    u.0 in known && (kind(u.0).List? ==> u.1.Some?)
  }

  /** How many elements come before the first that cannot be parsed. */
  function ParsedPrefix<V>(updates: seq<Update<V>>, known: set<string>, kind: string -> Kind): (n: nat)
    ensures n <= |updates|
  {
    if updates == [] || !Parses(updates[0], known, kind) then 0 else 1 + ParsedPrefix(updates[1..], known, kind)
  }

  lemma {:induction false} PrefixIsWhole<V>(updates: seq<Update<V>>, known: set<string>, kind: string -> Kind)
    ensures ParsedPrefix(updates, known, kind) < |updates| <==> exists u :: u in updates && !Parses(u, known, kind)
  {
    if updates != [] {
      PrefixIsWhole(updates[1..], known, kind);
      assert updates == [updates[0]] + updates[1..];
    }
  }

  /** What the parser throws at the rest of the elements, if anything. */
  function ErrorOf<V>(rest: seq<Update<V>>, known: set<string>): Outcome {
    if rest == [] then Done else if rest[0].0 !in known then NoSuchElement else NoText
  }

  /** The whole of the update can be parsed. */
  ghost predicate Sound<V>(d: Document<V>, known: set<string>, kind: string -> Kind) {
    d.schema && d.layout && forall u :: u in d.elements ==> Parses(u, known, kind)
  }

  /** The elements that are parsed before anything throws. */
  function Taken<V>(d: Document<V>, known: set<string>, kind: string -> Kind): seq<Update<V>> {
    if d.schema then d.elements[..ParsedPrefix(d.elements, known, kind)] else []
  }

  function OutcomeOf<V>(d: Document<V>, known: set<string>, kind: string -> Kind): Outcome {
    if !d.schema then BadSchema else
      var error := ErrorOf(d.elements[ParsedPrefix(d.elements, known, kind)..], known);
      if error == Done && !d.layout then BadLayout else error
  }

  lemma OutcomeIsDone<V>(d: Document<V>, known: set<string>, kind: string -> Kind)
    ensures OutcomeOf(d, known, kind) == Done <==> Sound(d, known, kind)
  {
    PrefixIsWhole(d.elements, known, kind);
  }

  /** The value of `k` after some elements: the text of the last one that has any, unless `k` waits for an answer
      or is composite. */
  function ValueAfter<V>(updates: seq<Update<V>>, k: string, waiting: set<string>, kind: string -> Kind, v: V): V {
    if updates == [] || k in waiting || kind(k).Composite? then v
    else
      var (key, text) := updates[|updates| - 1];
      if key == k && text.Some? then text.value else ValueAfter(updates[..|updates| - 1], k, waiting, kind, v)
  }

  // ----- the same, element by element -----------------------------------------------------------

  /** The parser gets as far as element `n`, and not past it. */
  predicate StopsAt<V>(updates: seq<Update<V>>, n: nat, known: set<string>, kind: string -> Kind) {
    && n <= |updates|
    && (forall j :: 0 <= j < n ==> Parses(updates[j], known, kind))
    && (n < |updates| ==> !Parses(updates[n], known, kind))
  }

  lemma {:induction false} StopsAtPrefix<V>(updates: seq<Update<V>>, known: set<string>, kind: string -> Kind)
    ensures StopsAt(updates, ParsedPrefix(updates, known, kind), known, kind)
  {
    if updates != [] && Parses(updates[0], known, kind) {
      StopsAtPrefix(updates[1..], known, kind);
      var n := ParsedPrefix(updates[1..], known, kind);
      assert forall j :: 0 < j < n + 1 ==> updates[j] == updates[1..][j - 1];
    }
  }

  lemma StopsAtOnce<V>(updates: seq<Update<V>>, n: nat, m: nat, known: set<string>, kind: string -> Kind)
    requires StopsAt(updates, n, known, kind) && StopsAt(updates, m, known, kind)
    ensures n == m
  {
  }

  /** Element `n` is the first that throws, because its key is not in the model or it is a list without text. */
  predicate Throws<V>(updates: seq<Update<V>>, n: nat, known: set<string>, kind: string -> Kind) {
    && n < |updates|
    && (updates[n].0 !in known || (kind(updates[n].0) == List && updates[n].1 == None))
    && forall j :: 0 <= j < n ==> updates[j].0 in known && (kind(updates[j].0) == List ==> updates[j].1 != None)
  }

  /** What is thrown, and by what. */
  ghost predicate OutcomeFits<V>(d: Document<V>, outcome: Outcome, known: set<string>, kind: string -> Kind) {
    && (outcome == BadSchema <==> !d.schema)
    && (outcome == NoSuchElement <==>
          d.schema && exists n: nat :: Throws(d.elements, n, known, kind) && d.elements[n].0 !in known)
    && (outcome == NoText <==>
          d.schema && exists n: nat :: Throws(d.elements, n, known, kind) && d.elements[n].0 in known)
    && (outcome == BadLayout <==> d.schema && !d.layout && forall n: nat :: !Throws(d.elements, n, known, kind))
    && (outcome == Done <==> d.schema && d.layout && forall n: nat :: !Throws(d.elements, n, known, kind))
  }

  lemma ThrowsIff<V>(updates: seq<Update<V>>, n: nat, known: set<string>, kind: string -> Kind)
    ensures Throws(updates, n, known, kind) <==> n < |updates| && ParsedPrefix(updates, known, kind) == n
  {
    var p := ParsedPrefix(updates, known, kind);
    StopsAtPrefix(updates, known, kind);
    if Throws(updates, n, known, kind) {
      StopsAtOnce(updates, n, p, known, kind);
    }
  }

  lemma OutcomeOfFits<V>(d: Document<V>, known: set<string>, kind: string -> Kind)
    ensures OutcomeFits(d, OutcomeOf(d, known, kind), known, kind)
  {
    var p := ParsedPrefix(d.elements, known, kind);
    forall n: nat
      ensures Throws(d.elements, n, known, kind) <==> n < |d.elements| && p == n
    {
      ThrowsIff(d.elements, n, known, kind);
    }
    if p < |d.elements| {
      assert Throws(d.elements, p, known, kind);
      assert d.elements[p..][0] == d.elements[p];
    }
  }

  /** Element `i` is the last before `n` that has text for `k`. */
  predicate LastText<V>(updates: seq<Update<V>>, n: nat, k: string, i: nat) {
    && i < n <= |updates| && updates[i].0 == k && updates[i].1.Some?
    && forall j :: i < j < n && updates[j].0 == k ==> updates[j].1.None?
  }

  ghost predicate NoneThrows<V>(updates: seq<Update<V>>, known: set<string>, kind: string -> Kind) {
    forall n: nat :: !Throws(updates, n, known, kind)
  }

  /** The first `n` elements are parsed, and no others. */
  ghost predicate ReadsJust<V>(d: Document<V>, n: nat, known: set<string>, kind: string -> Kind) {
    if !d.schema then n == 0
    else Throws(d.elements, n, known, kind) || (n == |d.elements| && NoneThrows(d.elements, known, kind))
  }

  /** Every key that waits for no answer and is not composite has the last text that was parsed for it. */
  ghost predicate TextsTakenOver<V>(d: Document<V>, waiting: set<string>, kind: string -> Kind,
                                    before: map<string, V>, after: map<string, V>) {
    forall n: nat, k: string, i: nat ::
      ReadsJust(d, n, before.Keys, kind) && LastText(d.elements, n, k, i) && k !in waiting && kind(k) != Composite ==>
        k in after && after[k] == d.elements[i].1.value
  }

  /** Every other value is the old one. */
  ghost predicate OthersKept<V>(d: Document<V>, waiting: set<string>, kind: string -> Kind,
                                before: map<string, V>, after: map<string, V>) {
    && after.Keys == before.Keys
    && (forall k :: k in before && (k in waiting || kind(k) == Composite) ==> after[k] == before[k])
    && (forall n: nat, k: string ::
          ReadsJust(d, n, before.Keys, kind) && n <= |d.elements| && k in before && Silent(d.elements[..n], k) ==>
            after[k] == before[k])
  }

  ghost predicate Silent<V>(updates: seq<Update<V>>, k: string) {
    forall u :: u in updates && u.0 == k ==> u.1.None?
  }

  lemma {:induction false} LastTextCounts<V>(updates: seq<Update<V>>, k: string, waiting: set<string>,
                                             kind: string -> Kind, v: V, i: nat)
    requires LastText(updates, |updates|, k, i) && k !in waiting && kind(k) != Composite
    ensures ValueAfter(updates, k, waiting, kind, v) == updates[i].1.value
  {
    if i < |updates| - 1 {
      LastTextCounts(updates[..|updates| - 1], k, waiting, kind, v, i);
    }
  }

  lemma {:induction false} SilenceKeeps<V>(updates: seq<Update<V>>, k: string, waiting: set<string>,
                                          kind: string -> Kind, v: V)
    requires Silent(updates, k)
    ensures ValueAfter(updates, k, waiting, kind, v) == v
  {
    if updates != [] {
      assert updates[|updates| - 1] in updates;
      SilenceKeeps(updates[..|updates| - 1], k, waiting, kind, v);
    }
  }

  lemma TakenUpTo<V>(d: Document<V>, known: set<string>, kind: string -> Kind, n: nat)
    requires ReadsJust(d, n, known, kind)
    ensures n <= |d.elements| && Taken(d, known, kind) == d.elements[..n]
    ensures forall j :: 0 <= j < n ==> d.elements[j].0 in known
  {
    if d.schema {
      var p := ParsedPrefix(d.elements, known, kind);
      ThrowsIff(d.elements, n, known, kind);
      ThrowsIff(d.elements, p, known, kind);
      StopsAtPrefix(d.elements, known, kind);
    }
  }

  lemma ValuesFit<V>(d: Document<V>, waiting: set<string>, kind: string -> Kind,
                     before: map<string, V>, after: map<string, V>)
    requires after.Keys == before.Keys
    requires forall k :: k in after ==>
      after[k] == ValueAfter(Taken(d, before.Keys, kind), k, waiting, kind, before[k])
    ensures TextsTakenOver(d, waiting, kind, before, after) && OthersKept(d, waiting, kind, before, after)
  {
    forall n: nat, k: string, i: nat
      | ReadsJust(d, n, before.Keys, kind) && LastText(d.elements, n, k, i) && k !in waiting && kind(k) != Composite
      ensures k in after && after[k] == d.elements[i].1.value
    {
      TakenUpTo(d, before.Keys, kind, n);
      LastTextCounts(d.elements[..n], k, waiting, kind, before[k], i);
    }
    forall n: nat, k: string
      | ReadsJust(d, n, before.Keys, kind) && n <= |d.elements| && k in before && Silent(d.elements[..n], k)
      ensures after[k] == before[k]
    {
      TakenUpTo(d, before.Keys, kind, n);
      SilenceKeeps(d.elements[..n], k, waiting, kind, before[k]);
    }
  }

  /** A change that is never sent: a server update cannot be parsed, and the sender stays deaf to the change that
      follows. */
  method BadUpdateDeafens(values: map<string, int>, kind: string -> Kind, known: string, bad: Document<int>)
    returns (r: Replica<int>)
    requires known in values && !Sound(bad, values.Keys, kind)
    ensures r.Valid() && known in r.values && r.missed == {known}
    ensures r.posts == [] && !r.updateInProgress && r.timers == 0
  {
    r := new Replica(values, kind);
    var _ := r.TakeServerUpdate(bad);
    var _ := r.ChangeLocally(known, Fresh(r.values[known] + 1));
  }

  /** A composite that is changed in place and handed back is posted, with the key. */
  method OwnCompositeIsPosted(values: map<string, int>, kind: string -> Kind, key: string) returns (r: Replica<int>)
    requires key in values && key != "" && kind(key).Composite?
    ensures r.Valid() && r.values == values[key := values[key] + 1] && r.missed == {}
    ensures r.updateInProgress && r.posts == [map[key := values[key] + 1]]
  {
    r := new Replica(values, kind);
    r.ChangeInPlace(key, values[key] + 1);
    var _ := r.ChangeLocally(key, Own);
    assert r.Build() == map[key := values[key] + 1];
  }

  /** A list that is changed in place and handed back is never posted.  Nothing is being parsed and the key has a
      name, but the array is the model's own, so the listeners are not told. */
  method OwnListIsMissed(values: map<string, int>, kind: string -> Kind, key: string) returns (r: Replica<int>)
    requires key in values && kind(key).List?
    ensures r.Valid() && r.values == values[key := values[key] + 1] && !r.parsingUpdate
    ensures r.missed == {key} && r.posts == [] && !r.updateInProgress && r.timers == 0
  {
    r := new Replica(values, kind);
    r.ChangeInPlace(key, values[key] + 1);
    var _ := r.ChangeLocally(key, Own);
  }
}
