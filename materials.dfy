/** Surface materials and light sources, as records (src/materials.rs, src/lights.rs). The
    Phong `lighting` computation is not modelled: the world takes it as a parameter of type
    Lighting. */
module Materials {
  import opened Tuples

  /** `Material { color, ambient, diffuse, specular, shininess }`. */
  datatype Material = Material(color: Tuple, ambient: real, diffuse: real, specular: real, shininess: real)

  /** `Material::new`: white, ambient 0.1, diffuse 0.9, specular 0.9, shininess 200. */
  const DefaultMaterial: Material := Material(Color(1.0, 1.0, 1.0), 0.1, 0.9, 0.9, 200.0)

  /** `PointLight { intensity, position }`; `PointLight::new` stores both unchanged. */
  datatype PointLight = PointLight(position: Tuple, intensity: Tuple)

  /** The shape of `Material::lighting`: the colour one light gives a point of a material,
      seen from the eye vector, with the given surface normal. */
  type Lighting = (Material, PointLight, Tuple, Tuple, Tuple) -> Tuple
}
