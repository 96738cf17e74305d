/** The obstacle list that `makeFile` sorts into two id streams: debris and
    ordinary obstacles. */
module Obstacles {

  /** An obstacle as given: a position, passed through untouched, and whether it is debris. */
  datatype Obstacle = Obstacle(x: real, y: real, z: real, isDebris: bool)

  /** The stream an entry joins and the id it receives there. */
  datatype Route = ObstacleStream(id: nat) | DebrisStream(id: nat)

  /** Number of debris entries in `obs`. */
  function DebrisCount(obs: seq<Obstacle>): (n: nat)
    ensures n <= |obs|
  {
    if obs == [] then 0
    else DebrisCount(obs[..|obs| - 1]) + (if obs[|obs| - 1].isDebris then 1 else 0)
  }

  /** The route of entry `i`: its own stream, with the number of earlier entries
      of that stream as its id. */
  function RouteOf(obs: seq<Obstacle>, i: nat): Route
    requires i < |obs|
  {
    var before := DebrisCount(obs[..i]);
    if obs[i].isDebris then DebrisStream(before) else ObstacleStream(i - before)
  }

  /** Counting one more entry adds one exactly when that entry is debris. */
  lemma DebrisCountStep(obs: seq<Obstacle>, i: nat)
    requires i < |obs|
    ensures DebrisCount(obs[..i + 1]) == DebrisCount(obs[..i]) + (if obs[i].isDebris then 1 else 0)
  {
    assert obs[..i + 1][..i] == obs[..i];
  }

  /** Between two prefixes the debris count grows by at least the debris entries
      and at most the entries in between; entry `i` itself moves its own stream on. */
  lemma {:induction false} DebrisCountBetween(obs: seq<Obstacle>, i: nat, j: nat)
    requires i < j <= |obs|
    ensures DebrisCount(obs[..i]) + (if obs[i].isDebris then 1 else 0) <= DebrisCount(obs[..j])
    ensures DebrisCount(obs[..j]) - DebrisCount(obs[..i]) <= j - i - (if obs[i].isDebris then 0 else 1)
    decreases j - i
  {
    DebrisCountStep(obs, j - 1);
    if j - 1 > i {
      DebrisCountBetween(obs, i, j - 1);
    }
  }

  /** Within each stream, ids follow the input order strictly. */
  lemma StreamIdsIncrease(obs: seq<Obstacle>, i: nat, j: nat)
    requires i < j < |obs|
    requires obs[i].isDebris == obs[j].isDebris
    ensures RouteOf(obs, i).id < RouteOf(obs, j).id
  {
    DebrisCountBetween(obs, i, j);
  }

  /** Every id lies below its stream's final count, so the `n` ids of a stream of
      `n` entries are exactly 0 .. n - 1. */
  lemma StreamIdsBounded(obs: seq<Obstacle>, i: nat)
    requires i < |obs|
    ensures obs[i].isDebris ==> RouteOf(obs, i) == DebrisStream(RouteOf(obs, i).id) && RouteOf(obs, i).id < DebrisCount(obs)
    ensures !obs[i].isDebris ==> RouteOf(obs, i) == ObstacleStream(RouteOf(obs, i).id) && RouteOf(obs, i).id < |obs| - DebrisCount(obs)
  {
    DebrisCountBetween(obs, i, |obs|);
    assert obs[..|obs|] == obs;
  }

  /** Loop of `makeFile` over the obstacles: each entry goes to exactly one of the
      two counters, which end at the sizes of the two streams. */
  method ClassifyObstacles(obstacles: seq<Obstacle>) returns (routes: seq<Route>, obstacleId: nat, debrisId: nat)
    ensures |routes| == |obstacles|
    ensures forall i :: 0 <= i < |obstacles| ==> routes[i] == RouteOf(obstacles, i)
    ensures debrisId == DebrisCount(obstacles)
    ensures obstacleId + debrisId == |obstacles|
  {
    routes, obstacleId, debrisId := [], 0, 0;
    var i := 0;
    while i < |obstacles|
      invariant 0 <= i <= |obstacles| && |routes| == i
      invariant forall k :: 0 <= k < i ==> routes[k] == RouteOf(obstacles, k)
      invariant debrisId == DebrisCount(obstacles[..i])
      invariant obstacleId + debrisId == i
    {
      var obstacle := obstacles[i];
      DebrisCountStep(obstacles, i);
      if obstacle.isDebris {
        routes := routes + [DebrisStream(debrisId)];
        debrisId := debrisId + 1;
      } else {
        routes := routes + [ObstacleStream(obstacleId)];
        obstacleId := obstacleId + 1;
      }
      i := i + 1;
    }
    assert obstacles[..i] == obstacles;
  }
}
