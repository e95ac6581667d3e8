# Student grade calculator: a Dafny model of its core

This project models the core of a small Flask application that records
student exam scores, derives a total, a percentage and a grade label for
each student, and gates its pages behind a two-role (admin/user) login.
The model has four modules:

- `Grading` (grading.dfy): the grade calculator `calculate_grade`, the
  student row, and the derived fields written by `insert_student` and
  `update_student`. The predicate `Consistent` states the row invariant:
  total, percentage and grade agree with the three scores.
- `StudentStats` (stats.dfy): the grade distribution that `/stats` shows,
  which is pandas `value_counts` over the grade column.
- `Web` (app.py's routes, in app.dfy): class `App` holds the `students`
  table (a map from row id to row), the `users` table (a map from username
  to user) and the session (a map from key to value). Each route handler is
  a method. It returns a symbolic `Response`: the flash message, and either
  the page rendered, the endpoint redirected to, or a crash. `Valid()` is
  the invariant every handler keeps. Every row is consistent, every user is
  filed under its own username, and the session is either empty or holds
  exactly `user_id`, `username` and `role`.
- `Wrappers` (wrappers.dfy): `Option`, for Python's `None`.

Some inputs come from outside the code, so they are parameters of the
methods that use them:

- The database assigns row and user ids by auto-increment. Inserts and
  registrations take that id as a parameter, and their precondition says
  it is fresh.
- The password hasher is a `string -> string` parameter of `Register`.
- The password checker is a `(string, string) -> bool` parameter of
  `Login`.

Three behaviours of the code are easy to misread; the model follows the
code:

- `/home` and both `/student_list` handlers test for a session key
  `"user"`, and login never writes that key. So those routes redirect to
  login for every session the application can produce. `Web.App.Home`,
  `Web.App.StudentList` and `Web.App.HomeStudentList` state exactly this
  under `Valid()`.
- The role is stored as the form sends it; the code does not restrict it
  to `admin` or `user`.
- A POST to `/update/<id>` for a missing id does not fail silently. The
  update changes nothing, and then the handler raises while building its
  flash message. The model returns `Crash` for that case.

## Model

| member | source | states |
|---|---|---|
| `Grading.CalculateGrade` | app.py:31-39 | the label is A iff p >= 90, B iff 75 <= p < 90, C iff 50 <= p < 75, F iff p < 50; it is always one of the four labels, for every real p |
| `Grading.GradeMonotone` | app.py:31-39 | a higher percentage never earns a lower grade |
| `Grading.Scored` | app.py:47-50 | the inserted row keeps name and scores, satisfies `Consistent`, its percentage is a third of the score sum, and its grade is A/B/C/F exactly when the sum is at least 270 / in [225,270) / in [150,225) / below 150 |
| `Grading.AnnExample` | app.py:47-50 | scores 80, 90 and 70 give total 240, percentage 80 and grade B |
| `Grading.Rescored` | app.py:61-72 | the updated row keeps its name, takes the new scores, is `Consistent`, and equals the row an insert of the same name and scores would write |
| `StudentStats.GradeCounts` | app.py:148 | empty for an empty table; its keys are the grades that occur; each count is the number of rows with that grade and is positive |
| `StudentStats.CountsSumToRows` | app.py:148 | when every row carries one of the four labels, the counts mention only those labels, add up to the number of rows, and are empty exactly when the table is |
| `Web.SignIn` | app.py:240-243 | after login, the session holds the user's id, username and role and keeps its other keys; it passes the admin guard iff the role is `admin`; it has the `"user"` key iff it had it before; a reachable session stays reachable |
| `Web.App.InsertStudent` | app.py:47-59 | the table gains exactly one row, under the fresh id, built by `Scored`; existing rows, users and session are unchanged; `Valid()` is kept |
| `Web.App.UpdateStudent` | app.py:61-74 | an existing row gets the `Rescored` row (name kept); a missing id leaves the table unchanged and is no error; other rows, the set of ids, users and session are unchanged |
| `Web.App.Home` | app.py:115-119 | renders only when the session has the `"user"` key; under `Valid()` it always redirects to login |
| `Web.App.StudentList` | app.py:122-132 | renders the table and the session's role only when the session has `"user"`; under `Valid()` it always redirects to login |
| `Web.App.HomeStudentList` | app.py:193-202 | renders the table only when the session has `"user"`; under `Valid()` it always redirects to login |
| `Web.App.Index` | app.py:135-140 | redirects to login without `user_id`; otherwise renders the whole table |
| `Web.App.Stats` | app.py:143-155 | redirects to login without `user_id`; otherwise renders grade counts that are empty exactly when the table is, use only the four labels and add up to the number of rows |
| `Web.App.AddStudentRoute` | app.py:158-171 | without an admin session: table unchanged, error flash, redirect to home; admin GET renders the form; admin POST inserts the `Scored` row under the fresh id and flashes the name; users and session never change |
| `Web.App.UpdateRoute` | app.py:174-191 | without an admin session: table unchanged, error flash, redirect to home; admin GET renders the looked-up row or none; admin POST on an existing id writes the `Rescored` row and flashes the stored name; on a missing id the table is unchanged and the handler crashes |
| `Web.App.Register` | app.py:205-224 | a taken username leaves users unchanged and flashes "Username already exists!"; a new one adds exactly that user with the hashed password and role; both redirect to login; students and session never change |
| `Web.App.Login` | app.py:227-249 | a missing or empty field is rejected before any lookup; the session becomes `SignIn` of the stored user only when the user exists and the check holds; an unknown user and a wrong password give the same message and leave the session unchanged |
| `Web.App.Logout` | app.py:252-256 | the session becomes empty; the tables are unchanged; flash and redirect to login |

## Left out

- Flask itself is not modelled: routing, templates, `url_for`, and how flash messages are stored in the session. Flash messages are returned in the `Response` instead.
- The duplicate `/student_list` registration (app.py:122 and app.py:193) is not modelled. Both handlers are modelled as separate methods; which one the framework dispatches to is framework behaviour.
- MySQL is not modelled: `connect_db` and its `exit()` on failure, cursors, commits and transactions. `fetch_data` becomes reading the in-memory map, so the storage engine's row order is not captured.
- Username lookup and the uniqueness constraint use exact string equality. MySQL's default case-insensitive collation is not modelled.
- Web.App.Register: the only integrity error modelled is a duplicate username. Other constraint failures are not.
- Password hashing (`generate_password_hash`, `check_password_hash`) is a foreign library. It appears only as function parameters.
- Floating point is not modelled. Scores are exact reals, so IEEE rounding near the 90/75/50 thresholds (for example 270/300*100) is not captured. `float()` parsing is not modelled either: its `ValueError`, NaN and infinity inputs. A form field missing from the request is not modelled.
- Web.App.Stats: the rendered page carries only the grade counts. `avg_percentage`, its rounding, and the two charts are left out because they are float numerics and matplotlib rendering.
- `get_charts` is not modelled, including its early return of two empty strings for an empty table. It wraps a plotting library.
- The `students` and `users` tables start empty and only this application writes them. Rows written by other clients are not modelled. The database does not check that such rows have consistent derived fields or one of the four grade labels, so the row invariant in `Valid()` and the count sum that `/stats` relies on hold only for rows this application wrote.
- Concurrency is not modelled: one application state and one client session at a time, with no interleaving of requests and no forged cookies.
