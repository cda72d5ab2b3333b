/**
 * The course routes of the serverless entry point, `POST /api/courses` and
 * `GET /api/courses/:id`, and its route table with the catch-all that
 * answers every other request with 404.
 */
module Courses {
  import opened Wrappers
  import opened Text
  import opened Schema
  import opened Server

  const TeacherOnlyMessage := "เฉพาะครูเท่านั้นที่สามารถสร้างหลักสูตรได้"
  const CourseCreatedMessage := "สร้างหลักสูตรสำเร็จ"
  const NoCourseMessage := "ไม่พบหลักสูตร"
  const RouteNotFoundMessage := "Route not found"

  /** A course body: its columns, and a `teacherId` the client may or may
      not have put in. */
  datatype CourseInput = CourseInput(fields: seq<(string, string)>, teacherId: Option<int>)

  /** The create-course handler. A caller who is not a teacher gets 403
      before the body is even validated, and nothing is created; an invalid
      body is 400 with the issues; otherwise exactly one course is added,
      owned by the caller whatever `teacherId` the body named. */
  method CreateCourse(db: Database, crypto: Crypto, secret: string, header: Option<string>,
                      validate: CourseInput -> Result<CourseInput, seq<Issue>>,
                      body: CourseInput, fault: bool) returns (resp: Response)
    requires db.Valid()
    modifies db`courses
    ensures db.Valid()
    ensures Authenticate(crypto, secret, header).Refused? ==>
      resp == Authenticate(crypto, secret, header).response
    ensures Authenticate(crypto, secret, header).Authorized? &&
            Authenticate(crypto, secret, header).claims.role != "TEACHER" ==>
      resp == Response(403, Message(TeacherOnlyMessage))
    ensures Authenticate(crypto, secret, header).Authorized? &&
            Authenticate(crypto, secret, header).claims.role == "TEACHER" && validate(body).Err? ==>
      resp == FailureResponse(ValidationFailure(validate(body).error))
    ensures resp.status == 201 <==>
      Authenticate(crypto, secret, header).Authorized? &&
      Authenticate(crypto, secret, header).claims.role == "TEACHER" && validate(body).Ok? && !fault
    ensures resp.status == 201 ==>
      var c := Course(|old(db.courses)| + 1, validate(body).value.fields,
                      Authenticate(crypto, secret, header).claims.userId);
      db.courses == old(db.courses) + [c] && resp == Response(201, CourseCreated(CourseCreatedMessage, c))
    ensures resp.status != 201 ==> db.courses == old(db.courses)
  {
    var auth := Authenticate(crypto, secret, header);
    if auth.Refused? {
      return auth.response;
    }
    if auth.claims.role != "TEACHER" {
      return Response(403, Message(TeacherOnlyMessage));
    }
    var validated := validate(body);
    if validated.Err? {
      return FailureResponse(ValidationFailure(validated.error));
    }
    if fault {
      return FailureResponse(InternalFailure);
    }
    var course := db.CreateCourse(validated.value.fields, auth.claims.userId);
    resp := Response(201, CourseCreated(CourseCreatedMessage, course));
  }

  /** `GET /api/courses/:id`, with the id already read from the path: the
      course, or 404 when there is none with that id. */
  function GetCourse(courses: seq<Course>, id: int, fault: bool): (r: Response)
    ensures fault ==> r == FailureResponse(InternalFailure)
    ensures !fault ==> (r.status == 404 <==> forall i :: 0 <= i < |courses| ==> courses[i].id != id)
    ensures !fault && r.status == 200 ==>
      r.body.CourseBody? && r.body.course.id == id && r.body.course in courses
  {
    if fault then FailureResponse(InternalFailure)
    else
      match FindCourse(courses, id)
      case None => Response(404, Message(NoCourseMessage))
      case Some(c) => Response(200, CourseBody(c))
  }

  // ---------------------------------------------------------------- routes

  /** The request methods the routes use. */
  datatype HttpMethod = Get | Post | Put | Patch | Delete

  /** The handler a request reaches. */
  datatype Route =
    | RegisterRoute
    | LoginRoute
    | MeRoute
    | ListCoursesRoute
    | GetCourseRoute(id: string)
    | CreateCourseRoute
    | CourseTestsRoute(courseId: string)
    | NotFound

  /** The path's segments, a single trailing slash ignored. */
  function Segments(path: string): (segs: seq<string>)
    ensures forall i :: 0 <= i < |segs| ==> '/' !in segs[i]
  {
    DropTrailingEmpty(Split(path, '/'))
  }

  /** The pieces without a last empty one, unless it is the only piece. */
  function DropTrailingEmpty(parts: seq<string>): (r: seq<string>)
    ensures r == parts || (|parts| > 1 && r == parts[..|parts| - 1] && parts[|parts| - 1] == "")
  {
    if |parts| > 1 && parts[|parts| - 1] == "" then parts[..|parts| - 1] else parts
  }

  /** The route table, in the order the routes are registered, ending with
      the catch-all. A `:param` matches one non-empty segment. */
  function RouteOf(m: HttpMethod, path: string): Route {
    RouteFor(m, Segments(path))
  }

  /** The route table over the path's segments. Each handler is reached by
      exactly its own method and path pattern, so the order of registration
      never hides a route behind another, and a `:param` is read from its
      segment. */
  function RouteFor(m: HttpMethod, s: seq<string>): (r: Route)
    ensures r == RegisterRoute <==> m == Post && s == ["", "api", "auth", "register"]
    ensures r == LoginRoute <==> m == Post && s == ["", "api", "auth", "login"]
    ensures r == MeRoute <==> m == Get && s == ["", "api", "auth", "me"]
    ensures r == ListCoursesRoute <==> m == Get && s == ["", "api", "courses"]
    ensures r == CreateCourseRoute <==> m == Post && s == ["", "api", "courses"]
    ensures r.GetCourseRoute? <==> m == Get && |s| == 4 && s[..3] == ["", "api", "courses"] && s[3] != ""
    ensures r.GetCourseRoute? ==> r.id == s[3]
    ensures r.CourseTestsRoute? <==>
      m == Get && |s| == 5 && s[..3] == ["", "api", "courses"] && s[3] != "" && s[4] == "tests"
    ensures r.CourseTestsRoute? ==> r.courseId == s[3]
  {
    if m == Post && s == ["", "api", "auth", "register"] then RegisterRoute
    else if m == Post && s == ["", "api", "auth", "login"] then LoginRoute
    else if m == Get && s == ["", "api", "auth", "me"] then
      assert s[..3] != ["", "api", "courses"] by { assert s[..3][2][0] == 'a'; }
      MeRoute
    else if m == Get && s == ["", "api", "courses"] then ListCoursesRoute
    else if m == Get && |s| == 4 && s[..3] == ["", "api", "courses"] && s[3] != "" then GetCourseRoute(s[3])
    else if m == Post && s == ["", "api", "courses"] then CreateCourseRoute
    else if m == Get && |s| == 5 && s[..3] == ["", "api", "courses"] && s[3] != "" && s[4] == "tests" then CourseTestsRoute(s[3])
    else NotFound
  }

  /** A single trailing slash reaches the same handler as the path without
      it. */
  lemma TrailingSlashIgnored(m: HttpMethod, path: string)
    requires path != "" && path[|path| - 1] != '/'
    ensures RouteOf(m, path + "/") == RouteOf(m, path)
  {
    var parts := Split(path, '/');
    assert path + "/" == path + ['/'];
    SplitAppendSeparator(path, '/');
    SplitLastNonEmpty(path, '/');
    assert (parts + [""])[..|parts|] == parts;
    assert Segments(path + "/") == parts;
    assert Segments(path) == parts;
  }

  /** `app.all('*')`: a request no route matched is answered with 404. */
  function CatchAll(m: HttpMethod, path: string): (r: Option<Response>)
    ensures r.Some? <==> RouteOf(m, path) == NotFound
    ensures r.Some? ==> r.value.status == 404
  {
    if RouteOf(m, path) == NotFound then Some(Response(404, Message(RouteNotFoundMessage))) else None
  }

  /** The segments of a path written as slash-joined pieces. */
  lemma SegmentsOfJoin(pieces: seq<string>)
    requires |pieces| >= 1 && pieces[|pieces| - 1] != ""
    requires forall i :: 0 <= i < |pieces| ==> '/' !in pieces[i]
    ensures Segments(Join(pieces, "/")) == pieces
  {
    var j := Join(pieces, "/");
    assert j == Join(pieces, ['/']);
    SplitJoin(pieces, '/');
    assert Split(j, '/') == pieces;
  }

  /** The test page posts its answers to `/api/tests/:id/submit`, the
      slash-join of the segments below; no route matches, so the submission
      always gets 404. */
  lemma SubmitIsNotFound(id: string)
    requires '/' !in id
    ensures RouteOf(Post, Join(["", "api", "tests", id, "submit"], "/")) == NotFound
  {
    var pieces := ["", "api", "tests", id, "submit"];
    SegmentsOfJoin(pieces);
    assert RouteFor(Post, pieces) == NotFound;
  }

  /** The course page reads and writes progress at
      `/api/courses/:id/progress/:userId`; no route matches either request. */
  lemma ProgressIsNotFound(courseId: string, userId: string, m: HttpMethod)
    requires '/' !in courseId && '/' !in userId && userId != ""
    ensures RouteOf(m, Join(["", "api", "courses", courseId, "progress", userId], "/")) == NotFound
  {
    var pieces := ["", "api", "courses", courseId, "progress", userId];
    SegmentsOfJoin(pieces);
    assert RouteFor(m, pieces) == NotFound;
  }

  /** The test builder posts a new test to `/api/courses/:id/tests`; only
      `GET` is routed there, so the post gets 404. */
  lemma CreateTestIsNotFound(courseId: string)
    requires '/' !in courseId
    ensures RouteOf(Post, Join(["", "api", "courses", courseId, "tests"], "/")) == NotFound
    ensures courseId != "" ==>
      RouteOf(Get, Join(["", "api", "courses", courseId, "tests"], "/")) == CourseTestsRoute(courseId)
  {
    var pieces := ["", "api", "courses", courseId, "tests"];
    SegmentsOfJoin(pieces);
    assert pieces[..3] == ["", "api", "courses"];
  }

  /** A course id in the path `/api/courses/:id` reaches the get-course
      handler. */
  lemma CoursePathRoutes(id: string)
    requires id != "" && '/' !in id
    ensures RouteOf(Get, Join(["", "api", "courses", id], "/")) == GetCourseRoute(id)
  {
    var pieces := ["", "api", "courses", id];
    SegmentsOfJoin(pieces);
    assert pieces[..3] == ["", "api", "courses"];
  }
}
