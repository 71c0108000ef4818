/** The parts of a Model that the snapshot and editor code touch: its
    transform, its meshes, the textures it has loaded and its shader.
    Model.h is not part of this model, so loading a model from a file and
    drawing it are left out, and the getters are the fields themselves. */
module Models {
  import opened Glm
  import opened MeshData
  import opened Shaders

  class Model {
    var position: Vec3
    var rotation: Vec3
    var scale: Vec3
    var meshes: seq<Mesh>
    /** textures_loaded. */
    var texturesLoaded: seq<Texture>
    var shader: Shader

    /** A model as loading leaves it: the loaded parts are given. */
    constructor (position: Vec3, rotation: Vec3, scale: Vec3, meshes: seq<Mesh>, texturesLoaded: seq<Texture>, shader: Shader)
      ensures this.position == position && this.rotation == rotation && this.scale == scale
      ensures this.meshes == meshes && this.texturesLoaded == texturesLoaded && this.shader == shader
    {
      this.position := position;
      this.rotation := rotation;
      this.scale := scale;
      this.meshes := meshes;
      this.texturesLoaded := texturesLoaded;
      this.shader := shader;
    }

    method SetPosition(v: Vec3)
      modifies this`position
      ensures position == v
    {
      position := v;
    }

    method SetRotation(v: Vec3)
      modifies this`rotation
      ensures rotation == v
    {
      rotation := v;
    }

    method SetScale(v: Vec3)
      modifies this`scale
      ensures scale == v
    {
      scale := v;
    }
  }
}
