/** What every extension worker shares (`kubeworker.py`): a name, the workers
    it must run after, and the filter that drops the nodes an ignore policy
    excludes from it. */
module KubeWorker {
  import opened Wrappers
  import opened Seqs
  import opened ArchModel

  /** The categories an ignore policy is consulted for. */
  datatype IgnoreType = WorkerIgnore | RefactoringIgnore | SmellsIgnore

  /** `Ignorer.is_ignored(node, category, name)`; the policy itself is configuration. */
  type Ignorer = (Node, IgnoreType, string) -> bool

  /** `IgnoreNothing`. */
  function IgnoreNothing(): Ignorer {
    (n: Node, t: IgnoreType, name: string) => false
  }

  /** Worker names used below; the values of the source's name constants are
      configuration and stand in here as these strings. */
  const COMPUTE_NODE_WORKER := "compute-node-worker"
  const DATABASE_WORKER := "database-worker"
  const NAME_WORKER := "name-worker"
  const SERVICE_WORKER := "service-worker"
  const ISTIO_WORKER := "istio-worker"

  datatype Worker = Worker(name: string, executedOnlyAfter: seq<string>)

  /** `KubeWorker.__init__`. */
  function NewWorker(name: string): (w: Worker)
    ensures w.name == name && |w.executedOnlyAfter| == 0
  {
    Worker(name, [])
  }

  /** `DatabaseWorker.__init__`: runs only after the name worker. */
  function NewDatabaseWorker(): (w: Worker)
    ensures w.name == DATABASE_WORKER && w.executedOnlyAfter == [NAME_WORKER]
  {
    var w := NewWorker(DATABASE_WORKER);
    w.(executedOnlyAfter := w.executedOnlyAfter + [NAME_WORKER])
  }

  /** `IstioWorker.__init__`: runs only after the service worker. */
  function NewIstioWorker(): (w: Worker)
    ensures w.name == ISTIO_WORKER && w.executedOnlyAfter == [SERVICE_WORKER]
  {
    var w := NewWorker(ISTIO_WORKER);
    w.(executedOnlyAfter := w.executedOnlyAfter + [SERVICE_WORKER])
  }

  /** The policy in force: a missing one ignores nothing. */
  function Policy(ignore: Option<Ignorer>): Ignorer {
    if ignore.Some? then ignore.value else IgnoreNothing()
  }

  /** `_get_nodes_not_ignored(nodes, ignore)` for the worker called `worker`. */
  function NodesNotIgnored(nodes: seq<Node>, ignore: Option<Ignorer>, worker: string): (r: seq<Node>)
    ensures IsSubsequence(r, nodes)
    ensures forall i :: 0 <= i < |r| ==> r[i] in nodes && !Policy(ignore)(r[i], WorkerIgnore, worker)
    ensures forall i :: 0 <= i < |nodes| && !Policy(ignore)(nodes[i], WorkerIgnore, worker) ==> nodes[i] in r
    ensures ignore.None? ==> r == nodes
  {
    var ig := Policy(ignore);
    var keep := (n: Node) => !ig(n, WorkerIgnore, worker);
    FilterIsSubsequence(nodes, keep);
    if ignore.None? then FilterAll(nodes, keep); Filter(nodes, keep)
    else Filter(nodes, keep)
  }
}
