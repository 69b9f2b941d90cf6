/**
 * The account file `data/karin-plugin-manage/user.yaml` as the YAML editor sees it: a list of
 * records, each an ordered list of key/value pairs whose value is a scalar or a sequence node.
 */
module UserFile {

  /** An account as the manager keeps it in memory. */
  datatype User = User(username: string, password: string, routes: seq<string>, status: string)

  /** A YAML value node: a scalar string or a sequence of strings. */
  datatype Node = Scalar(text: string) | Items(elems: seq<string>)

  /** One `key: value` pair of a record. */
  datatype Field = Field(key: string, node: Node)

  type Record = seq<Field>

  /** The record `pusharr` writes for an account: its four keys in the order the object lists them. */
  function ToRecord(u: User): (r: Record)
    ensures |r| == 4 && r[0] == Field("username", Scalar(u.username))
  {
    [ Field("username", Scalar(u.username)),
      Field("password", Scalar(u.password)),
      Field("routes", Items(u.routes)),
      Field("status", Scalar(u.status)) ]
  }

  /** The file holding exactly the given accounts, in order. */
  function Records(users: seq<User>): (file: seq<Record>)
    ensures |file| == |users|
    ensures forall i :: 0 <= i < |users| ==> file[i] == ToRecord(users[i])
  {
    seq(|users|, i requires 0 <= i < |users| => ToRecord(users[i]))
  }

  /** No two accounts share a username. */
  ghost predicate UniqueNames(users: seq<User>)
  {
    forall i, j :: 0 <= i < j < |users| ==> users[i].username != users[j].username
  }

  /**
   * Writing `value` into a node: a string replaces a scalar's text (a string written onto a
   * sequence node only sets a property YAML ignores), a list replaces the node with a fresh
   * sequence.
   */
  function Assign(node: Node, value: Node): (r: Node)
    ensures value.Items? ==> r == value
    ensures value.Scalar? && node.Scalar? ==> r == value
    ensures value.Scalar? && node.Items? ==> r == node
  {
    match value
    case Scalar(s) => if node.Scalar? then Scalar(s) else node
    case Items(xs) => Items(xs)
  }

  /** The field is the `username` field and holds `user`. */
  predicate NamesUser(f: Field, user: string)
  {
    f.key == "username" && f.node == Scalar(user)
  }

  /** One of the first `n` fields of the record names `user`. */
  predicate Reached(fields: Record, user: string, n: int)
    requires 0 <= n <= |fields|
  {
    exists j :: 0 <= j < n && NamesUser(fields[j], user)
  }

  /**
   * The field update of one record: every field named `key` that comes at or after a
   * `username` field holding `user` receives `value`; every other field is kept.
   */
  function UpdateFields(fields: Record, user: string, key: string, value: Node): (r: Record)
    ensures |r| == |fields|
    ensures forall j :: 0 <= j < |fields| ==> r[j].key == fields[j].key
  {
    seq(|fields|, j requires 0 <= j < |fields| =>
      if fields[j].key == key && Reached(fields, user, j + 1) then Field(key, Assign(fields[j].node, value))
      else fields[j])
  }

  /** The whole-file effect of the field update: every record goes through the inner loop afresh. */
  function UpdateFile(file: seq<Record>, user: string, key: string, value: Node): (r: seq<Record>)
    ensures |r| == |file|
    ensures forall i :: 0 <= i < |file| ==> r[i] == UpdateFields(file[i], user, key, value)
  {
    seq(|file|, i requires 0 <= i < |file| => UpdateFields(file[i], user, key, value))
  }

  /** A record of another account passes through the update untouched. */
  lemma OtherRecordUnchanged(u: User, user: string, key: string, value: Node)
    requires u.username != user
    ensures UpdateFields(ToRecord(u), user, key, value) == ToRecord(u)
  {
    var r := ToRecord(u);
    forall j | 0 <= j < 4 ensures !NamesUser(r[j], user) {
    }
  }

  /**
   * In the account's own record, whose `username` field comes first, the update rewrites the
   * field named `key` and no other: writing a string into `password` or a list into `routes`
   * yields the record of the account with that one attribute replaced.
   */
  lemma OwnRecordUpdated(u: User, key: string, value: Node, u': User)
    requires (key == "password" && value.Scalar? && u' == u.(password := value.text))
          || (key == "routes" && value.Items? && u' == u.(routes := value.elems))
    ensures UpdateFields(ToRecord(u), u.username, key, value) == ToRecord(u')
  {
    var r := ToRecord(u);
    assert NamesUser(r[0], u.username);
    assert Reached(r, u.username, 1) && Reached(r, u.username, 2);
    assert Reached(r, u.username, 3) && Reached(r, u.username, 4);
  }

  /**
   * When the file mirrors an account list with unique names, updating the file for account `k`
   * yields the file of the list in which only account `k` changed.
   */
  lemma UpdateMirrorsMemory(users: seq<User>, k: nat, key: string, value: Node, u': User)
    requires UniqueNames(users) && k < |users|
    requires (key == "password" && value.Scalar? && u' == users[k].(password := value.text))
          || (key == "routes" && value.Items? && u' == users[k].(routes := value.elems))
    ensures UpdateFile(Records(users), users[k].username, key, value) == Records(users[k := u'])
  {
    var name := users[k].username;
    var lhs := UpdateFile(Records(users), name, key, value);
    var rhs := Records(users[k := u']);
    forall i | 0 <= i < |users|
      ensures lhs[i] == rhs[i]
    {
      if i == k {
        OwnRecordUpdated(users[k], key, value, u');
      } else {
        assert users[i].username != name by {
          if i < k { assert users[i].username != users[k].username; }
          else { assert users[k].username != users[i].username; }
        }
        OtherRecordUnchanged(users[i], name, key, value);
      }
    }
  }

  /** Appending an account appends its record. */
  lemma RecordsAppend(users: seq<User>, u: User)
    ensures Records(users + [u]) == Records(users) + [ToRecord(u)]
  {
    assert forall i :: 0 <= i < |users| ==> (users + [u])[i] == users[i];
  }
}
