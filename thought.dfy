/** The Thought document (models/Thought.js): its fields, the defaults a new
    document receives, and the schema's validation rules. */
module ThoughtModel {
  import opened Common

  const MinLength := 5
  const MaxLength := 140

  /** The tag enumeration of the schema. */
  const Categories: set<string> :=
    {"travel", "food", "family", "friends", "humor", "nature", "wellness", "home", "entertainment", "work", "other"}

  const DefaultTag := "other"

  /** `createdAt` is a reading of an abstract clock. */
  datatype Thought = Thought(message: string, hearts: int, tags: seq<string>, createdAt: int)

  /** A stored thought together with its `_id`, as handlers send it back. */
  datatype Doc = Doc(id: Id, thought: Thought)

  predicate MessageOk(m: string) {
    MinLength <= |m| <= MaxLength
  }

  predicate TagsOk(tags: seq<string>) {
    forall t :: t in tags ==> t in Categories
  }

  /** What the schema accepts when a document is saved. */
  predicate ValidThought(t: Thought) {
    MessageOk(t.message) && t.hearts >= 0 && TagsOk(t.tags)
  }

  /** Lower-case every tag, as the schema's `lowercase` option does before validation. */
  function LowerAll(tags: seq<string>): (r: seq<string>)
    ensures |r| == |tags|
    ensures forall i :: 0 <= i < |tags| ==> r[i] == Lower(tags[i])
  {
    if tags == [] then [] else [Lower(tags[0])] + LowerAll(tags[1..])
  }

  /** `new Thought({ message, tags })` at clock reading `now`: hearts start at 0,
      omitted tags become ["other"], given tags are lower-cased. */
  function New(message: string, tags: Option<seq<string>>, now: int): (t: Thought)
    ensures t.message == message && t.hearts == 0 && t.createdAt == now
    ensures tags.None? ==> t.tags == [DefaultTag]
    ensures tags.Some? ==> |t.tags| == |tags.value|
    ensures tags.Some? ==>
              forall i :: 0 <= i < |tags.value| ==> t.tags[i] == Lower(tags.value[i])
  {
    Thought(message, 0, if tags.Some? then LowerAll(tags.value) else [DefaultTag], now)
  }

  /** The tags a request may give: none at all, or tags that are categories once lower-cased. */
  predicate TagsAccepted(tags: Option<seq<string>>) {
    tags.Some? ==> forall t :: t in tags.value ==> Lower(t) in Categories
  }

  /** A new document passes validation exactly when its message has an allowed
      length and its tags are accepted. */
  lemma NewValid(message: string, tags: Option<seq<string>>, now: int)
    ensures ValidThought(New(message, tags, now)) <==>
              MessageOk(message) && TagsAccepted(tags)
  {
    var n := New(message, tags, now);
    if tags.Some? {
      var ts := tags.value;
      if TagsOk(n.tags) {
        forall t | t in ts ensures Lower(t) in Categories {
          var i :| 0 <= i < |ts| && ts[i] == t;
          assert n.tags[i] in n.tags;
        }
      }
      if forall t :: t in ts ==> Lower(t) in Categories {
        forall x | x in n.tags ensures x in Categories {
          var i :| 0 <= i < |n.tags| && n.tags[i] == x;
          assert ts[i] in ts;
        }
      }
    }
  }
}
