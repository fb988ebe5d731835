/**
 * The ownership-link key `${user.id}_${assignment.id}` that app.js builds in
 * the POST, PUT and DELETE handlers, defined once here.
 */
module Ownership {

  /** The key reads back as the user id, the separator '_' and the assignment id, in that order. */
  function LinkKey(userId: string, assignmentId: string): (key: string)
    ensures |key| == |userId| + 1 + |assignmentId|
    ensures key[..|userId|] == userId && key[|userId|] == '_' && key[|userId| + 1..] == assignmentId
  {
    userId + "_" + assignmentId
  }

  /**
   * The key is injective when user ids contain no '_' (they are version-4
   * UUIDs): the first '_' of a key ends the user id.
   */
  lemma LinkKeyInjective(u1: string, a1: string, u2: string, a2: string)
    requires '_' !in u1 && '_' !in u2
    requires LinkKey(u1, a1) == LinkKey(u2, a2)
    ensures u1 == u2 && a1 == a2
  {
    var k := LinkKey(u1, a1);
    assert k[|u1|] == '_' && k[|u2|] == '_';
    assert u1 == k[..|u1|] == u2;
    assert a1 == k[|u1| + 1..] == a2;
  }

  /** Without that condition two different (user, assignment) pairs can share a key. */
  lemma LinkKeyCollidesWithUnderscores()
    ensures LinkKey("a_b", "c") == LinkKey("a", "b_c")
  {
  }
}
