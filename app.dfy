/**
 * The stateful core of the Flask application (app.py): the `students`
 * and `users` tables as in-memory maps, the signed session as a map from
 * key to value, and each route handler as a method that returns a
 * symbolic response (which page is rendered or which endpoint is
 * redirected to, and the flash message shown).
 */
module Web {
  import opened Wrappers
  import opened Grading
  import opened StudentStats

  /** A value stored in the session: a user id or a piece of text. */
  datatype SessionValue = Id(id: int) | Text(text: string)

  type Session = map<string, SessionValue>

  /** A row of the `users` table; `passwordHash` is what the hasher produced. */
  datatype User = User(id: int, username: string, passwordHash: string, role: string)

  /** The endpoints handed to `url_for` in redirects. */
  datatype Endpoint = LoginView | HomeView | IndexView

  /** The templates rendered, with the data passed to them that the model keeps. */
  datatype Page =
    | HomePage
    | StudentTable(rows: Table, role: Option<SessionValue>)
    | StatsPage(gradeCounts: map<string, nat>)
    | AddStudentPage
    | UpdateStudentPage(student: Option<Student>)
    | RegisterPage
    | LoginPage

  datatype Category = Success | Error

  datatype Flash = Flash(message: string, category: Category)

  /** Crash: the handler raises after its table operation (an HTTP 500). */
  datatype Reply = Redirect(to: Endpoint) | Render(page: Page) | Crash

  datatype Response = Response(flash: Option<Flash>, reply: Reply)

  /** The form posted to `/add_student`, scores already converted by `float`. */
  datatype StudentForm = StudentForm(name: string, math: real, science: real, english: real)

  /** The form posted to `/update/<id>`. */
  datatype ScoreForm = ScoreForm(math: real, science: real, english: real)

  /** The form posted to `/register`. */
  datatype RegisterForm = RegisterForm(username: string, password: string, role: string)

  /** The form posted to `/login`; a field absent from the form is `None`. */
  datatype LoginForm = LoginForm(username: Option<string>, password: Option<string>)

  const UserIdKey: string := "user_id"
  const UsernameKey: string := "username"
  const RoleKey: string := "role"
  /** The key `/home` and both `/student_list` handlers look for. */
  const UserKey: string := "user"

  /** The keys a successful login writes. */
  const LoginKeys: set<string> := {UserIdKey, UsernameKey, RoleKey}

  const AdminRole: string := "admin"

  /** The guard of `/`, `/stats` and the first half of the admin guard. */
  predicate SignedIn(s: Session)
  {
    UserIdKey in s
  }

  /**
   * The guard of `/add_student` and `/update/<id>`. A session with
   * `user_id` but no `role` would make the handler raise a KeyError; no
   * `Reachable` session has that shape, so here it simply fails the guard.
   */
  predicate IsAdmin(s: Session)
  {
    UserIdKey in s && RoleKey in s && s[RoleKey] == Text(AdminRole)
  }

  /** The guard of `/home` and both `/student_list` handlers. */
  predicate HasUserKey(s: Session)
  {
    UserKey in s
  }

  /** The session shapes login and logout leave: empty, or exactly the login keys. */
  predicate Reachable(s: Session)
  {
    s.Keys == {} || s.Keys == LoginKeys
  }

  /** The session after a successful login of `u`. */
  function SignIn(s: Session, u: User): (r: Session)
    ensures r.Keys == s.Keys + LoginKeys
    ensures SignedIn(r)
    ensures r[UserIdKey] == Id(u.id) && r[UsernameKey] == Text(u.username) && r[RoleKey] == Text(u.role)
    ensures IsAdmin(r) <==> u.role == AdminRole
    ensures forall k | k in s && k !in LoginKeys :: r[k] == s[k]
    ensures HasUserKey(r) <==> HasUserKey(s)
    ensures Reachable(s) ==> Reachable(r)
  {
    s[UserIdKey := Id(u.id)][UsernameKey := Text(u.username)][RoleKey := Text(u.role)]
  }

  /** The application state: both tables and the current request's session. */
  class App {
    var students: Table
    var users: map<string, User>
    var session: Session

    /**
     * Every row's derived fields agree with its scores, every user is
     * filed under its own username, and the session is one that login
     * and logout can produce.
     */
    ghost predicate Valid()
      reads this
    {
      && (forall id | id in students :: Consistent(students[id]))
      && (forall name | name in users :: users[name].username == name)
      && Reachable(session)
    }

    constructor ()
      ensures Valid()
      ensures students == map[] && users == map[] && session == map[]
    {
      students := map[];
      users := map[];
      session := map[];
    }

    /** insert_student: adds one consistent row under the fresh id the database assigns. */
    method InsertStudent(id: int, name: string, math: real, science: real, english: real)
      requires Valid()
      requires id !in students
      modifies this
      ensures Valid()
      ensures students == old(students)[id := Scored(name, math, science, english)]
      ensures |students| == |old(students)| + 1
      ensures forall k | k in old(students) :: k in students && students[k] == old(students)[k]
      ensures users == old(users) && session == old(session)
    {
      students := students[id := Scored(name, math, science, english)];
    }

    /**
     * update_student: overwrites the scores and derived fields of row
     * `id`, keeping its name; a missing id changes nothing and is no error.
     */
    method UpdateStudent(id: int, math: real, science: real, english: real)
      requires Valid()
      modifies this
      ensures Valid()
      ensures id in old(students) ==>
                students == old(students)[id := Rescored(old(students)[id], math, science, english)]
      ensures id !in old(students) ==> students == old(students)
      ensures students.Keys == old(students).Keys
      ensures forall k | k in old(students) && k != id :: students[k] == old(students)[k]
      ensures users == old(users) && session == old(session)
    {
      if id in students {
        students := students[id := Rescored(students[id], math, science, english)];
      }
    }

    /** `/home`: renders only for a session holding "user", which login never writes. */
    method Home() returns (r: Response)
      ensures r.reply == Redirect(LoginView) <==> !HasUserKey(session)
      ensures HasUserKey(session) ==> r == Response(None, Render(HomePage))
      ensures Valid() ==> r == Response(None, Redirect(LoginView))
    {
      if UserKey !in session {
        return Response(None, Redirect(LoginView));
      }
      r := Response(None, Render(HomePage));
    }

    /** `/student_list` (student_list): the table with the session's role, behind the "user" guard. */
    method StudentList() returns (r: Response)
      ensures r.reply == Redirect(LoginView) <==> !HasUserKey(session)
      ensures HasUserKey(session) ==>
                r == Response(None, Render(StudentTable(students,
                                                        if RoleKey in session then Some(session[RoleKey]) else None)))
      ensures Valid() ==> r == Response(None, Redirect(LoginView))
    {
      if UserKey !in session {
        return Response(None, Redirect(LoginView));
      }
      var role := if RoleKey in session then Some(session[RoleKey]) else None;
      r := Response(None, Render(StudentTable(students, role)));
    }

    /** `/student_list` (home_student_list): the table without a role, behind the "user" guard. */
    method HomeStudentList() returns (r: Response)
      ensures r.reply == Redirect(LoginView) <==> !HasUserKey(session)
      ensures HasUserKey(session) ==> r == Response(None, Render(StudentTable(students, None)))
      ensures Valid() ==> r == Response(None, Redirect(LoginView))
    {
      if UserKey !in session {
        return Response(None, Redirect(LoginView));
      }
      r := Response(None, Render(StudentTable(students, None)));
    }

    /** `/`: the full table for any signed-in session. */
    method Index() returns (r: Response)
      ensures !SignedIn(session) ==> r == Response(None, Redirect(LoginView))
      ensures SignedIn(session) ==> r == Response(None, Render(StudentTable(students, None)))
    {
      if UserIdKey !in session {
        return Response(None, Redirect(LoginView));
      }
      r := Response(None, Render(StudentTable(students, None)));
    }

    /**
     * `/stats`: for a signed-in session, the grade distribution, which is
     * empty exactly when the table is and otherwise adds up to its size.
     */
    method Stats() returns (r: Response)
      requires Valid()
      ensures !SignedIn(session) ==> r == Response(None, Redirect(LoginView))
      ensures SignedIn(session) ==> r.flash == None && r.reply.Render? && r.reply.page.StatsPage?
      ensures SignedIn(session) ==>
                var counts := r.reply.page.gradeCounts;
                && counts == GradeCounts(students)
                && counts.Keys <= Labels
                && (counts == map[] <==> |students| == 0)
                && Tally(counts) == |students|
    {
      if UserIdKey !in session {
        return Response(None, Redirect(LoginView));
      }
      var counts := if |students| == 0 then map[] else GradeCounts(students);
      CountsSumToRows(students);
      r := Response(None, Render(StatsPage(counts)));
    }

    /**
     * `/add_student`: only an admin session gets past the guard; a post
     * then inserts the row under the fresh id.
     */
    method AddStudentRoute(post: Option<StudentForm>, freshId: int) returns (r: Response)
      requires Valid()
      requires freshId !in students
      modifies this
      ensures Valid()
      ensures users == old(users) && session == old(session)
      ensures !IsAdmin(session) ==>
                && students == old(students)
                && r == Response(Some(Flash("Only admin can add students!", Error)), Redirect(HomeView))
      ensures IsAdmin(session) && post.None? ==>
                students == old(students) && r == Response(None, Render(AddStudentPage))
      ensures IsAdmin(session) && post.Some? ==>
                var f := post.value;
                && students == old(students)[freshId := Scored(f.name, f.math, f.science, f.english)]
                && r == Response(Some(Flash("Student " + f.name + " added successfully!", Success)),
                                 Redirect(IndexView))
    {
      if !IsAdmin(session) {
        return Response(Some(Flash("Only admin can add students!", Error)), Redirect(HomeView));
      }
      match post
      case None =>
        r := Response(None, Render(AddStudentPage));
      case Some(f) =>
        InsertStudent(freshId, f.name, f.math, f.science, f.english);
        r := Response(Some(Flash("Student " + f.name + " added successfully!", Success)), Redirect(IndexView));
    }

    /**
     * `/update/<id>`: only an admin session gets past the guard; the row
     * is looked up, and a post updates it. A post for a missing id leaves
     * the table alone and then fails while building the flash message.
     */
    method UpdateRoute(id: int, post: Option<ScoreForm>) returns (r: Response)
      requires Valid()
      modifies this
      ensures Valid()
      ensures users == old(users) && session == old(session)
      ensures !IsAdmin(session) ==>
                && students == old(students)
                && r == Response(Some(Flash("Only admin can update students!", Error)), Redirect(HomeView))
      ensures IsAdmin(session) && post.None? ==>
                && students == old(students)
                && r == Response(None, Render(UpdateStudentPage(
                                         if id in students then Some(students[id]) else None)))
      ensures IsAdmin(session) && post.Some? && id in old(students) ==>
                var f := post.value;
                && students == old(students)[id := Rescored(old(students)[id], f.math, f.science, f.english)]
                && r == Response(Some(Flash("Student " + old(students)[id].name + " updated successfully!", Success)),
                                 Redirect(IndexView))
      ensures IsAdmin(session) && post.Some? && id !in old(students) ==>
                students == old(students) && r == Response(None, Crash)
    {
      if !IsAdmin(session) {
        return Response(Some(Flash("Only admin can update students!", Error)), Redirect(HomeView));
      }
      var student := if id in students then Some(students[id]) else None;
      match post
      case None =>
        r := Response(None, Render(UpdateStudentPage(student)));
      case Some(f) =>
        UpdateStudent(id, f.math, f.science, f.english);
        match student
        case None =>
          r := Response(None, Crash);
        case Some(s) =>
          r := Response(Some(Flash("Student " + s.name + " updated successfully!", Success)), Redirect(IndexView));
    }

    /**
     * `/register`: a post adds the user unless the username is taken, in
     * which case nothing changes; both outcomes redirect to login.
     * `hash` stands for the password hasher.
     */
    method Register(post: Option<RegisterForm>, freshId: int, hash: string -> string) returns (r: Response)
      requires Valid()
      requires forall name | name in users :: users[name].id != freshId
      modifies this
      ensures Valid()
      ensures students == old(students) && session == old(session)
      ensures post.None? ==> users == old(users) && r == Response(None, Render(RegisterPage))
      ensures post.Some? && post.value.username in old(users) ==>
                && users == old(users)
                && r == Response(Some(Flash("Username already exists!", Error)), Redirect(LoginView))
      ensures post.Some? && post.value.username !in old(users) ==>
                var f := post.value;
                && users == old(users)[f.username := User(freshId, f.username, hash(f.password), f.role)]
                && r == Response(Some(Flash("Registration successful! Please login.", Success)), Redirect(LoginView))
    {
      match post
      case None =>
        r := Response(None, Render(RegisterPage));
      case Some(f) =>
        if f.username in users {
          r := Response(Some(Flash("Username already exists!", Error)), Redirect(LoginView));
        } else {
          users := users[f.username := User(freshId, f.username, hash(f.password), f.role)];
          r := Response(Some(Flash("Registration successful! Please login.", Success)), Redirect(LoginView));
        }
    }

    /**
     * `/login`: an empty or missing field is rejected before any lookup;
     * the session gains the user's id, name and role only when the user
     * exists and `check(storedHash, password)` holds; an unknown user and
     * a wrong password get the same message and leave the session alone.
     */
    method Login(post: Option<LoginForm>, check: (string, string) -> bool) returns (r: Response)
      requires Valid()
      modifies this
      ensures Valid()
      ensures students == old(students) && users == old(users)
      ensures post.None? ==> session == old(session) && r == Response(None, Render(LoginPage))
      ensures post.Some? && !Filled(post.value) ==>
                && session == old(session)
                && r == Response(Some(Flash("Please enter both username and password!", Error)), Redirect(LoginView))
      ensures post.Some? && Filled(post.value) ==>
                var name, password := post.value.username.value, post.value.password.value;
                if name in users && check(users[name].passwordHash, password) then
                  && session == SignIn(old(session), users[name])
                  && r == Response(Some(Flash("Welcome " + name + "!", Success)), Redirect(HomeView))
                else
                  && session == old(session)
                  && r == Response(Some(Flash("Invalid username or password!", Error)), Redirect(LoginView))
    {
      match post
      case None =>
        r := Response(None, Render(LoginPage));
      case Some(f) =>
        if !Filled(f) {
          return Response(Some(Flash("Please enter both username and password!", Error)), Redirect(LoginView));
        }
        var name, password := f.username.value, f.password.value;
        if name in users && check(users[name].passwordHash, password) {
          var user := users[name];
          session := SignIn(session, user);
          r := Response(Some(Flash("Welcome " + user.username + "!", Success)), Redirect(HomeView));
        } else {
          r := Response(Some(Flash("Invalid username or password!", Error)), Redirect(LoginView));
        }
    }

    /** `/logout`: empties the session. */
    method Logout() returns (r: Response)
      requires Valid()
      modifies this
      ensures Valid()
      ensures session == map[]
      ensures students == old(students) && users == old(users)
      ensures r == Response(Some(Flash("Logged out successfully!", Success)), Redirect(LoginView))
    {
      session := map[];
      r := Response(Some(Flash("Logged out successfully!", Success)), Redirect(LoginView));
    }
  }

  /** Both login fields are present and non-empty (Python truthiness). */
  predicate Filled(f: LoginForm)
  {
    f.username.Some? && f.username.value != "" && f.password.Some? && f.password.value != ""
  }
}
