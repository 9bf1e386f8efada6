/**
 * The coreference entities every stage of the pipeline passes around. An entity
 * is a list of mentions; each mention has its (lemmatised) token, the raw token
 * and the dependency that attaches it to its governor, written "rel--governor".
 */
module Entities {
  import opened Strings

  datatype Mention = Mention(token: string, rawToken: string, dep: string)

  /**
   * An entity: its mentions, the chosen core token (and its raw form), the
   * named-entity types it carries (as positions in the type enumeration) and
   * its role labels.
   */
  datatype TextEntity = TextEntity(mentions: seq<Mention>, coreToken: string, rawCoreToken: string,
                                   types: set<int>, labels: set<int>)

  /** The entity with the labels `added` joined to its own. */
  function AddLabels(e: TextEntity, added: set<int>): TextEntity {
    e.(labels := e.labels + added)
  }

  /**
   * The governor of a dependency string: what follows its first "--". Without a
   * "--" the lookup index is -1, so everything after the first character is taken.
   */
  function Governor(dep: string): (r: string)
    ensures Contains(dep, "--") ==> dep == dep[..IndexOf(dep, "--")] + "--" + r
    ensures !Contains(dep, "--") && |dep| > 0 ==> r == dep[1..]
  {
    var i := IndexOf(dep, "--");
    if i >= 0 then dep[i + 2..] else if |dep| > 0 then dep[1..] else ""
  }

  /** The governor of every mention of the entity, in mention order. */
  function MentionGovernors(e: TextEntity): (r: seq<string>)
    ensures |r| == |e.mentions|
    ensures forall i :: 0 <= i < |r| ==> r[i] == Governor(e.mentions[i].dep)
  {
    seq(|e.mentions|, i requires 0 <= i < |e.mentions| => Governor(e.mentions[i].dep))
  }
}
